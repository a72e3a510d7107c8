/**
 Where the parts of a command stand in the line: a law of the command tree that
 mentions neither the grammar nor how the parser builds the tree.
 */
module ShOrder {
  import opened ShLex
  import opened ShGrammar

  /** Words in line order, inside [a, b). */
  predicate InLine(argv: seq<Tok>, a: nat, b: nat) {
    && (forall k :: 0 <= k < |argv| ==> a <= argv[k].0 < argv[k].1 <= b)
    && (forall k :: 0 < k < |argv| ==> argv[k - 1].1 <= argv[k].0)
  }

  /** The operator at p, in a stretch from a on, redirects to or from the file, with open's mode and the descriptor. */
  predicate Redirects(line: string, a: nat, p: nat, file: Tok, mode: nat, fd: nat) {
    a <= p < file.0 < file.1 <= |line| &&
    if line[p] == '<' then Blank(line, p + 1, file.0) && mode == 0x000 && fd == 0
    else line[p] == '>' && (p == a || line[p - 1] != '>') && fd == 1 &&
         if line[p + 1] == '>' then Blank(line, p + 2, file.0) && mode == 0x201
         else Blank(line, p + 1, file.0) && mode == 0x601
  }

  /**
   The command is what stands in line[a..b): the arguments of an exec node in
   order; a redirection's file right after its operator, after everything else
   of a block and after the files of earlier redirections; the sides of a pipe or
   list on the two sides of a | or ;, and a background command before an &.
   */
  ghost predicate Spans(line: string, c: Cmd, a: nat, b: nat) {
    a <= b <= |line| &&
    match c
    case Exec(argv) => InLine(argv, a, b)
    case Redir(d, file, mode, fd) =>
      && file.1 <= b
      && exists p: nat ::
        && Redirects(line, a, p, file, mode, fd)
        && (if IsSimple(d) then Spans(line, d, a, b) else Spans(line, d, a, p))
        && (d.Redir? ==> d.file.1 <= p)
    case Pipe(l, r) => exists p: nat :: a <= p < b && line[p] == '|' && Spans(line, l, a, p) && Spans(line, r, p + 1, b)
    case List(l, r) => exists p: nat :: a <= p < b && line[p] == ';' && Spans(line, l, a, p) && Spans(line, r, p + 1, b)
    case Back(d) => exists p: nat :: a <= p < b && line[p] == '&' && Spans(line, d, a, p)
  }

  /** Every token of the command stands in the stretch. */
  lemma {:induction false} TokensInside(line: string, c: Cmd, a: nat, b: nat, t: Tok)
    requires Spans(line, c, a, b) && t in Toks(c)
    ensures a <= t.0 < t.1 <= b
    decreases c
  {
    match c
    case Exec(argv) => assert t in argv;
    case Redir(d, file, mode, fd) =>
      var p: nat :| Redirects(line, a, p, file, mode, fd)
        && (if IsSimple(d) then Spans(line, d, a, b) else Spans(line, d, a, p)) && (d.Redir? ==> d.file.1 <= p);
      if t in Toks(d) { TokensInside(line, d, a, if IsSimple(d) then b else p, t); }
    case Pipe(l, r) =>
      var p: nat :| a <= p < b && line[p] == '|' && Spans(line, l, a, p) && Spans(line, r, p + 1, b);
      if t in Toks(l) { TokensInside(line, l, a, p, t); } else { TokensInside(line, r, p + 1, b, t); }
    case List(l, r) =>
      var p: nat :| a <= p < b && line[p] == ';' && Spans(line, l, a, p) && Spans(line, r, p + 1, b);
      if t in Toks(l) { TokensInside(line, l, a, p, t); } else { TokensInside(line, r, p + 1, b, t); }
    case Back(d) =>
      var p: nat :| a <= p < b && line[p] == '&' && Spans(line, d, a, p);
      TokensInside(line, d, a, p, t);
  }

  /** In a pipe or a list every token of the left side ends before every token of the right side starts. */
  lemma SidesInOrder(line: string, c: Cmd, a: nat, b: nat, s: Tok, t: Tok)
    requires Spans(line, c, a, b) && (c.Pipe? || c.List?) && s in Toks(c.left) && t in Toks(c.right)
    ensures s.1 < t.0
  {
    var p: nat :| a <= p < b && Spans(line, c.left, a, p) && Spans(line, c.right, p + 1, b);
    TokensInside(line, c.left, a, p, s);
    TokensInside(line, c.right, p + 1, b, t);
  }

  /** The stretch may end later. */
  lemma {:induction false} SpansLater(line: string, c: Cmd, a: nat, b: nat, b': nat)
    requires Spans(line, c, a, b) && b <= b' <= |line|
    ensures Spans(line, c, a, b')
    decreases c
  {
    match c
    case Exec(argv) =>
    case Redir(d, file, mode, fd) =>
      var p: nat :| Redirects(line, a, p, file, mode, fd)
        && (if IsSimple(d) then Spans(line, d, a, b) else Spans(line, d, a, p)) && (d.Redir? ==> d.file.1 <= p);
      if IsSimple(d) { SpansLater(line, d, a, b, b'); }
    case Pipe(l, r) =>
      var p: nat :| a <= p < b && line[p] == '|' && Spans(line, l, a, p) && Spans(line, r, p + 1, b);
      SpansLater(line, r, p + 1, b, b');
    case List(l, r) =>
      var p: nat :| a <= p < b && line[p] == ';' && Spans(line, l, a, p) && Spans(line, r, p + 1, b);
      SpansLater(line, r, p + 1, b, b');
    case Back(d) =>
  }

  /** It may start earlier, if it did not start in the middle of an operator. */
  lemma {:induction false} SpansEarlier(line: string, c: Cmd, a: nat, b: nat, a': nat)
    requires Spans(line, c, a, b) && a' <= a && (a == 0 || line[a - 1] != '>')
    ensures Spans(line, c, a', b)
    decreases c
  {
    match c
    case Exec(argv) =>
    case Redir(d, file, mode, fd) =>
      var p: nat :| Redirects(line, a, p, file, mode, fd)
        && (if IsSimple(d) then Spans(line, d, a, b) else Spans(line, d, a, p)) && (d.Redir? ==> d.file.1 <= p);
      SpansEarlier(line, d, a, if IsSimple(d) then b else p, a');
      assert Redirects(line, a', p, file, mode, fd);
    case Pipe(l, r) =>
      var p: nat :| a <= p < b && line[p] == '|' && Spans(line, l, a, p) && Spans(line, r, p + 1, b);
      SpansEarlier(line, l, a, p, a');
    case List(l, r) =>
      var p: nat :| a <= p < b && line[p] == ';' && Spans(line, l, a, p) && Spans(line, r, p + 1, b);
      SpansEarlier(line, l, a, p, a');
    case Back(d) =>
      var p: nat :| a <= p < b && line[p] == '&' && Spans(line, d, a, p);
      SpansEarlier(line, d, a, p, a');
  }

  /** One more argument, after the stretch. */
  lemma {:induction false} SpansArg(line: string, c: Cmd, a: nat, t: Tok, b: nat)
    requires Spans(line, c, a, t.0) && IsSimple(c) && t.0 < t.1 <= b <= |line|
    ensures Spans(line, AddArg(c, t), a, b)
    decreases c
  {
    if c.Redir? {
      var p: nat :| Redirects(line, a, p, c.file, c.mode, c.fd) && Spans(line, c.cmd, a, t.0)
        && (c.cmd.Redir? ==> c.cmd.file.1 <= p);
      SpansArg(line, c.cmd, a, t, b);
      var d := AddArg(c.cmd, t);
      assert Redirects(line, a, p, c.file, c.mode, c.fd) && Spans(line, d, a, b) && (d.Redir? ==> d.file.1 <= p);
    }
  }

  /** One more redirection, after the stretch. */
  lemma SpansRedir(line: string, c: Cmd, a: nat, op: Lex, w: Lex, b: nat)
    requires Spans(line, c, a, op.q) && LexOk(line, op) && op.kind in ['<', '>', '+'] && LexOk(line, w) && w.kind == 'a'
    requires Blank(line, op.e, w.q) && w.e <= b <= |line| && (op.q == a || line[op.q - 1] != '>')
    ensures Spans(line, Apply(c, Red(op, w)), a, b)
  {
    var file, r := (w.q, w.e), Apply(c, Red(op, w));
    OpRedirects(line, a, op, w);
    if IsSimple(c) { SpansLater(line, c, a, op.q, b); }
    assert Redirects(line, a, op.q, r.file, r.mode, r.fd);
  }

  lemma OpRedirects(line: string, a: nat, op: Lex, w: Lex)
    requires a <= op.q && LexOk(line, op) && op.kind in ['<', '>', '+'] && LexOk(line, w) && w.kind == 'a'
    requires Blank(line, op.e, w.q) && (op.q == a || line[op.q - 1] != '>')
    ensures var r := Apply(Exec([]), Red(op, w)); r.Redir? && Redirects(line, a, op.q, r.file, r.mode, r.fd)
  {
    LexStart(line, op);
    assert WordAt(line, w.q);
  }

  /** The lexemes of items end with a word, so an operator never stands right after a >. */
  lemma ItemsEnd(line: string, items: seq<Item>, a: nat, b: nat)
    requires ItemsOk(items) && Lexes(line, SpellItems(items), a, b)
    ensures a <= b <= |line| && (b == a || line[b - 1] != '>')
  {
    LexesOrder(line, SpellItems(items), a, b);
    if items != [] && a < b {
      var i, ts := items[|items| - 1], SpellItems(items);
      var t := ts[|ts| - 1];
      assert t == i.w;
      assert WordAt(line, t.e - 1);
    }
  }

  /** One more argument or redirection. */
  lemma ItemSpan(line: string, c: Cmd, s: seq<Item>, i: Item, a: nat, m: nat, e: nat, b: nat)
    requires ItemsOk(s) && ItemOk(i) && (i.Red? || IsSimple(c)) && a <= m <= |line| && (m == a || line[m - 1] != '>')
    requires e == (if i.Arg? then i.w.q else i.op.q) && Lexes(line, SpellItems(s) + SpellItem(i), m, b)
    requires Spans(line, c, a, e)
    ensures Spans(line, Apply(c, i), a, b)
  {
    hide Spans, Apply, Lexes, LexOk, SpellItems, SpellItem, ItemsOk;
    LastItem(line, s, i, m, b);
    ItemsEnd(line, s, m, e);
    if i.Arg? {
      SpansArg(line, c, a, (i.w.q, i.w.e), b);
      ApplyArg(c, i);
    } else {
      SpansRedir(line, c, a, i.op, i.w, b);
    }
  }

  /** Arguments and redirections, one after the other. */
  lemma {:induction false} ItemsSpan(line: string, c: Cmd, items: seq<Item>, a: nat, m: nat, b: nat)
    requires Spans(line, c, a, m) && ItemsOk(items) && Lexes(line, SpellItems(items), m, b)
    requires (IsSimple(c) || OnlyRedirs(items)) && a <= m <= |line| && (m == a || line[m - 1] != '>')
    ensures Spans(line, ApplyAll(c, items), a, b)
    decreases |items|
  {
    hide Spans, Apply, Lexes, LexOk, SpellItem, IsSimple;
    LexesOrder(line, SpellItems(items), m, b);
    if items == [] {
      SpansLater(line, c, a, m, b);
    } else {
      var s, i := items[..|items| - 1], items[|items| - 1];
      var e := if i.Arg? then i.w.q else i.op.q;
      LastItem(line, s, i, m, b);
      ItemsSpan(line, c, s, a, m, e);
      if IsSimple(c) { SimpleStays(c, s); }
      ItemSpan(line, ApplyAll(c, s), s, i, a, m, e, b);
    }
  }

  lemma ApplyArg(c: Cmd, i: Item)
    requires i.Arg? && IsSimple(c)
    ensures Apply(c, i) == AddArg(c, (i.w.q, i.w.e))
  {
  }

  lemma LastItem(line: string, s: seq<Item>, i: Item, m: nat, b: nat)
    requires ItemOk(i) && Lexes(line, SpellItems(s) + SpellItem(i), m, b)
    ensures LexOk(line, i.w) && i.w.q < i.w.e <= b <= |line|
    ensures i.Arg? ==> Lexes(line, SpellItems(s), m, i.w.q)
    ensures i.Red? ==> Lexes(line, SpellItems(s), m, i.op.q) && LexOk(line, i.op) && Blank(line, i.op.e, i.w.q)
  {
    var ts := SpellItems(s) + SpellItem(i);
    if i.Arg? {
      assert ts[..|ts| - 1] == SpellItems(s);
    } else {
      var us := ts[..|ts| - 1];
      assert us == SpellItems(s) + [i.op];
      assert us[..|us| - 1] == SpellItems(s);
    }
  }

  /** A list of lexemes is two lists, one after the other. */
  lemma {:induction false} LexesSplit(line: string, s: seq<Lex>, t: seq<Lex>, a: nat, b: nat) returns (m: nat)
    requires Lexes(line, s + t, a, b)
    ensures a <= m <= b <= |line| && Lexes(line, s, a, m) && Lexes(line, t, m, b) && (t != [] ==> m == t[0].q)
    decreases |t|
  {
    hide Lexes;
    LexesOrder(line, s + t, a, b);
    if t == [] {
      assert s + t == s;
      m := b;
      NoLexes(line, b);
    } else {
      var n := |t| - 1;
      assert (s + t)[..|s| + n] == s + t[..n];
      LexesLast(line, s + t, a, b);
      if n == 0 {
        assert s + t[..n] == s && [t[n]] == t;
        m := t[n].q;
        LexesOne(line, t[n], b);
        LexesOrder(line, s, a, m);
      } else {
        m := LexesSplit(line, s, t[..n], a, t[n].q);
        LexesSnoc(line, t, m, b);
      }
    }
  }

  lemma NoLexes(line: string, b: nat)
    requires b <= |line|
    ensures Lexes(line, [], b, b)
  {
  }

  lemma LexesLast(line: string, ts: seq<Lex>, a: nat, b: nat)
    requires Lexes(line, ts, a, b) && ts != []
    ensures var t := ts[|ts| - 1];
      LexOk(line, t) && Lexes(line, ts[..|ts| - 1], a, t.q) && Blank(line, t.e, b) && t.q < t.e <= b <= |line|
  {
  }

  lemma LexesSnoc(line: string, ts: seq<Lex>, a: nat, b: nat)
    requires ts != [] && LexOk(line, ts[|ts| - 1]) && Blank(line, ts[|ts| - 1].e, b)
    requires Lexes(line, ts[..|ts| - 1], a, ts[|ts| - 1].q)
    ensures Lexes(line, ts, a, b)
  {
  }

  lemma LexesOne(line: string, t: Lex, b: nat)
    requires LexOk(line, t) && Blank(line, t.e, b)
    ensures Lexes(line, [t], t.q, b)
  {
    assert [t][..0] == [];
  }

  /** A lexeme at the front, standing at m. */
  lemma FrontLex(line: string, x: Lex, t: seq<Lex>, m: nat, b: nat)
    requires Lexes(line, [x] + t, m, b) && m == x.q
    ensures LexOk(line, x) && m < x.e <= b && Lexes(line, t, x.e, b)
    ensures x.kind != 'a' && x.kind != '+' ==> x.e == m + 1 && line[m] == x.kind
  {
    LexesHead(line, [x] + t, m, b);
    assert ([x] + t)[1..] == t;
    LexesOrder(line, t, x.e, b);
    LexStart(line, x);
  }

  lemma {:induction false} AmpsSpan(line: string, c: Cmd, amps: seq<Lex>, a: nat, m: nat, b: nat)
    requires Spans(line, c, a, m) && Lexes(line, amps, m, b) && m <= b <= |line|
    requires forall k :: 0 <= k < |amps| ==> amps[k].kind == '&'
    ensures Spans(line, Backs(c, |amps|), a, b)
    decreases |amps|
  {
    if amps == [] {
      SpansLater(line, c, a, m, b);
    } else {
      var n := |amps| - 1;
      LexesOrder(line, amps[..n], m, amps[n].q);
      AmpsSpan(line, c, amps[..n], a, m, amps[n].q);
      LexStart(line, amps[n]);
      assert a <= amps[n].q < b && line[amps[n].q] == '&';
    }
  }

  /** The command of a line stands in the line as its derivation does. */
  lemma {:induction false} LineSpans(line: string, d: Line, a: nat, b: nat)
    requires LineOk(d) && Lexes(line, SpellLine(d), a, b)
    ensures Spans(line, TreeLine(d), a, b)
    decreases d, 0
  {
    hide Spans, Lexes, SpellPipe, TreePipe, PipeOk;
    var pipe, rest := SpellPipe(d.pipe), if d.Then? then [d.semi] + SpellLine(d.rest) else [];
    var m := LexesSplit(line, pipe + d.amps, rest, a, b);
    var k := LexesSplit(line, pipe, d.amps, a, m);
    PipeSpans(line, d.pipe, a, k);
    AmpsSpan(line, TreePipe(d.pipe), d.amps, a, k, m);
    if d.Then? {
      FrontLex(line, d.semi, SpellLine(d.rest), m, b);
      LineSpans(line, d.rest, m + 1, b);
      ListSpans(line, Backs(TreePipe(d.pipe), |d.amps|), TreeLine(d.rest), a, m, b);
    } else {
      SpansLater(line, Backs(TreePipe(d.pipe), |d.amps|), a, m, b);
    }
  }

  lemma ListSpans(line: string, l: Cmd, r: Cmd, a: nat, p: nat, b: nat)
    requires a <= p < b <= |line| && Spans(line, l, a, p) && Spans(line, r, p + 1, b)
    ensures line[p] == ';' ==> Spans(line, List(l, r), a, b)
    ensures line[p] == '|' ==> Spans(line, Pipe(l, r), a, b)
  {
  }

  lemma {:induction false} PipeSpans(line: string, d: Pipeline, a: nat, b: nat)
    requires PipeOk(d) && Lexes(line, SpellPipe(d), a, b)
    ensures Spans(line, TreePipe(d), a, b)
    decreases d
  {
    hide Spans, Lexes, SpellCommand, TreeCommand, CommandOk;
    var c, rest := SpellCommand(d.c), if d.Piped? then [d.bar] + SpellPipe(d.next) else [];
    var m := LexesSplit(line, c, rest, a, b);
    CommandSpans(line, d.c, a, m);
    if d.Piped? {
      FrontLex(line, d.bar, SpellPipe(d.next), m, b);
      PipeSpans(line, d.next, m + 1, b);
      ListSpans(line, TreeCommand(d.c), TreePipe(d.next), a, m, b);
    } else {
      SpansLater(line, TreeCommand(d.c), a, m, b);
    }
  }

  lemma ExecSpans(line: string, a: nat)
    requires a <= |line|
    ensures Spans(line, Exec([]), a, a)
  {
  }

  lemma {:induction false} CommandSpans(line: string, d: Command, a: nat, b: nat)
    requires CommandOk(d) && Lexes(line, SpellCommand(d), a, b)
    ensures Spans(line, TreeCommand(d), a, b)
    decreases d
  {
    hide Spans, Lexes, LineOk, SpellLine, TreeLine, SpellItems, ApplyAll, ItemsOk, OnlyRedirs, Args;
    LexesOrder(line, SpellCommand(d), a, b);
    match d
    case Simple(items) =>
      ExecSpans(line, a);
      ItemsSpan(line, Exec([]), items, a, a, b);
    case Block(open, inner, close, redirs) => BlockSpans(line, open, inner, close, redirs, a, b);
  }

  lemma {:induction false} BlockSpans(line: string, open: Lex, inner: Line, close: Lex, redirs: seq<Item>, a: nat,
                                      b: nat)
    requires CommandOk(Block(open, inner, close, redirs))
    requires Lexes(line, [open] + SpellLine(inner) + [close] + SpellItems(redirs), a, b)
    ensures Spans(line, ApplyAll(TreeLine(inner), redirs), a, b)
    decreases inner, 1
  {
    hide Spans, Lexes, LineOk, SpellLine, TreeLine, SpellItems, ApplyAll, ItemsOk, OnlyRedirs;
    var x, y := SpellLine(inner), SpellItems(redirs);
    assert [open] + x + [close] + y == ([open] + x) + ([close] + y);
    var m := LexesSplit(line, [open] + x, [close] + y, a, b);
    FrontLex(line, close, y, m, b);
    assert [] + ([open] + x) == [open] + x;
    var k := LexesSplit(line, [], [open] + x, a, m);
    FrontLex(line, open, x, k, m);
    LineSpans(line, inner, k + 1, m);
    SpansEarlier(line, TreeLine(inner), k + 1, m, a);
    SpansLater(line, TreeLine(inner), a, m, m + 1);
    ItemsSpan(line, TreeLine(inner), redirs, a, m + 1, b);
  }
}
