/**
 The command language of the shell (xv6/user/sh.c): a grammar, the lexemes and
 the command of each derivation, and how a derivation's lexemes split at the
 points where the parser looks ahead.
 */
module ShGrammar {
  import opened ShLex

  const MAXARGS: nat := 10
  const O_RDONLY: nat := 0x000
  const O_WRONLY: nat := 0x001
  const O_CREATE: nat := 0x200
  const O_TRUNC: nat := 0x400

  datatype Cmd =
    | Exec(argv: seq<Tok>)
    | Redir(cmd: Cmd, file: Tok, mode: nat, fd: nat)
    | Pipe(left: Cmd, right: Cmd)
    | List(left: Cmd, right: Cmd)
    | Back(cmd: Cmd)

  /** The tokens of a command: arguments and files. */
  ghost function Toks(c: Cmd): multiset<Tok> {
    match c
    case Exec(argv) => multiset(argv)
    case Redir(d, file, _, _) => Toks(d) + multiset{file}
    case Pipe(l, r) => Toks(l) + Toks(r)
    case List(l, r) => Toks(l) + Toks(r)
    case Back(d) => Toks(d)
  }

  /** The exec node at the bottom of a chain of redirections. */
  predicate IsSimple(c: Cmd) { c.Exec? || (c.Redir? && IsSimple(c.cmd)) }

  function Argc(c: Cmd): nat
    requires IsSimple(c)
  {
    if c.Exec? then |c.argv| else Argc(c.cmd)
  }

  /** cmd->argv[argc] = q; the node is reached through ret, whatever redirections wrap it. */
  function AddArg(c: Cmd, t: Tok): (r: Cmd)
    requires IsSimple(c)
    ensures IsSimple(r) && Argc(r) == Argc(c) + 1
  {
    if c.Exec? then Exec(c.argv + [t]) else Redir(AddArg(c.cmd, t), c.file, c.mode, c.fd)
  }

  lemma {:induction false} AddArgToks(c: Cmd, t: Tok)
    requires IsSimple(c)
    ensures Toks(AddArg(c, t)) == Toks(c) + multiset{t}
  {
    if c.Redir? { AddArgToks(c.cmd, t); }
  }


  /** An argument, or a redirection with its file. */
  datatype Item = Arg(w: Lex) | Red(op: Lex, w: Lex)

  /**
   The grammar, as derivations:
     line    ::= pipe '&'*  |  pipe '&'* ';' line
     pipe    ::= command  |  command '|' pipe
     command ::= (word | redirection)*  |  '(' line ')' redirection*
   */
  datatype Line = Last(pipe: Pipeline, amps: seq<Lex>) | Then(pipe: Pipeline, amps: seq<Lex>, semi: Lex, rest: Line)
  datatype Pipeline = One(c: Command) | Piped(c: Command, bar: Lex, next: Pipeline)
  datatype Command = Simple(items: seq<Item>) | Block(open: Lex, line: Line, close: Lex, redirs: seq<Item>)

  predicate ItemOk(i: Item) {
    i.w.kind == 'a' && (i.Red? ==> i.op.kind in ['<', '>', '+'])
  }

  predicate ItemsOk(items: seq<Item>) { forall k :: 0 <= k < |items| ==> ItemOk(items[k]) }

  predicate OnlyRedirs(items: seq<Item>) { forall k :: 0 <= k < |items| ==> items[k].Red? }

  function Args(items: seq<Item>): nat {
    if items == [] then 0 else Args(items[..|items| - 1]) + if items[|items| - 1].Arg? then 1 else 0
  }

  predicate LineOk(d: Line) {
    && PipeOk(d.pipe) && (forall k :: 0 <= k < |d.amps| ==> d.amps[k].kind == '&')
    && (d.Then? ==> d.semi.kind == ';' && LineOk(d.rest))
  }

  predicate PipeOk(d: Pipeline) {
    CommandOk(d.c) && (d.Piped? ==> d.bar.kind == '|' && PipeOk(d.next))
  }

  predicate CommandOk(d: Command) {
    match d
    case Simple(items) => ItemsOk(items) && Args(items) < MAXARGS
    case Block(open, line, close, redirs) =>
      open.kind == '(' && LineOk(line) && close.kind == ')' && ItemsOk(redirs) && OnlyRedirs(redirs)
  }

  /** The lexemes of a derivation, in order. */
  function SpellItem(i: Item): seq<Lex> { if i.Arg? then [i.w] else [i.op, i.w] }

  function SpellItems(items: seq<Item>): seq<Lex> {
    if items == [] then [] else SpellItems(items[..|items| - 1]) + SpellItem(items[|items| - 1])
  }

  function SpellLine(d: Line): seq<Lex> {
    SpellPipe(d.pipe) + d.amps + (if d.Then? then [d.semi] + SpellLine(d.rest) else [])
  }

  function SpellPipe(d: Pipeline): seq<Lex> {
    SpellCommand(d.c) + (if d.Piped? then [d.bar] + SpellPipe(d.next) else [])
  }

  function SpellCommand(d: Command): seq<Lex> {
    match d
    case Simple(items) => SpellItems(items)
    case Block(open, line, close, redirs) => [open] + SpellLine(line) + [close] + SpellItems(redirs)
  }

  /** The command a derivation stands for. */
  function Apply(c: Cmd, i: Item): Cmd {
    var file := (i.w.q, i.w.e);
    if i.Arg? then if IsSimple(c) then AddArg(c, file) else c
    else if i.op.kind == '<' then Redir(c, file, O_RDONLY, 0)
    else if i.op.kind == '>' then Redir(c, file, O_WRONLY + O_CREATE + O_TRUNC, 1)
    else Redir(c, file, O_WRONLY + O_CREATE, 1)
  }

  function ApplyAll(c: Cmd, items: seq<Item>): Cmd {
    if items == [] then c else Apply(ApplyAll(c, items[..|items| - 1]), items[|items| - 1])
  }

  function Backs(c: Cmd, n: nat): Cmd { if n == 0 then c else Back(Backs(c, n - 1)) }

  function TreeLine(d: Line): Cmd {
    var c := Backs(TreePipe(d.pipe), |d.amps|);
    if d.Then? then List(c, TreeLine(d.rest)) else c
  }

  function TreePipe(d: Pipeline): Cmd {
    if d.Piped? then Pipe(TreeCommand(d.c), TreePipe(d.next)) else TreeCommand(d.c)
  }

  function TreeCommand(d: Command): Cmd {
    match d
    case Simple(items) => ApplyAll(Exec([]), items)
    case Block(_, line, _, redirs) => ApplyAll(TreeLine(line), redirs)
  }

  lemma {:induction false} ApplyJoin(c: Cmd, s: seq<Item>, t: seq<Item>)
    ensures ApplyAll(c, s + t) == ApplyAll(ApplyAll(c, s), t) && SpellItems(s + t) == SpellItems(s) + SpellItems(t)
    ensures Args(s + t) == Args(s) + Args(t)
    decreases |t|
  {
    if t == [] {
      assert s + t == s;
    } else {
      assert (s + t)[..|s| + |t| - 1] == s + t[..|t| - 1];
      ApplyJoin(c, s, t[..|t| - 1]);
    }
  }

  lemma ApplyOne(c: Cmd, s: seq<Item>, i: Item)
    ensures ApplyAll(c, s + [i]) == Apply(ApplyAll(c, s), i) && SpellItems(s + [i]) == SpellItems(s) + SpellItem(i)
    ensures Args(s + [i]) == Args(s) + if i.Arg? then 1 else 0
  {
    assert (s + [i])[..|s|] == s;
  }

  lemma {:induction false} SimpleStays(c: Cmd, items: seq<Item>)
    requires IsSimple(c)
    ensures IsSimple(ApplyAll(c, items)) && Argc(ApplyAll(c, items)) == Argc(c) + Args(items)
    decreases |items|
  {
    if items != [] { SimpleStays(c, items[..|items| - 1]); }
  }

  /** A command's tokens are its derivation's words. */
  lemma {:induction false} ItemsWords(c: Cmd, items: seq<Item>)
    requires ItemsOk(items) && (IsSimple(c) || OnlyRedirs(items))
    ensures Toks(ApplyAll(c, items)) == Toks(c) + Words(SpellItems(items))
    decreases |items|
  {
    if items == [] {
      assert Toks(c) + multiset{} == Toks(c);
    } else {
      hide Toks, Words, SpellItem, Apply, IsSimple;
      var s, i := items[..|items| - 1], items[|items| - 1];
      ItemsWords(c, s);
      if IsSimple(c) { SimpleStays(c, s); }
      WordsJoin(SpellItems(s), SpellItem(i));
      ItemWords(i);
      ApplyToks(ApplyAll(c, s), i);
    }
  }

  lemma ApplyToks(c: Cmd, i: Item)
    requires i.Red? || IsSimple(c)
    ensures Toks(Apply(c, i)) == Toks(c) + multiset{(i.w.q, i.w.e)}
  {
    if i.Arg? { AddArgToks(c, (i.w.q, i.w.e)); }
  }

  lemma ItemWords(i: Item)
    requires ItemOk(i)
    ensures Words(SpellItem(i)) == multiset{(i.w.q, i.w.e)}
  {
    if i.Arg? { WordsOne(i.w); } else {
      WordsOne(i.op);
      WordsOne(i.w);
      WordsJoin([i.op], [i.w]);
      assert [i.op] + [i.w] == [i.op, i.w];
    }
  }

  lemma {:induction false} AmpsWords(c: Cmd, amps: seq<Lex>)
    requires forall k :: 0 <= k < |amps| ==> amps[k].kind == '&'
    ensures Words(amps) == multiset{} && Toks(Backs(c, |amps|)) == Toks(c)
    decreases |amps|
  {
    if amps != [] { AmpsWords(c, amps[..|amps| - 1]); }
  }

  lemma {:induction false} LineWords(d: Line)
    requires LineOk(d)
    ensures Toks(TreeLine(d)) == Words(SpellLine(d))
    decreases d
  {
    PipeWords(d.pipe);
    AmpsWords(TreePipe(d.pipe), d.amps);
    WordsJoin(SpellPipe(d.pipe), d.amps);
    if d.Then? {
      LineWords(d.rest);
      WordsJoin(SpellPipe(d.pipe) + d.amps, [d.semi] + SpellLine(d.rest));
      WordsJoin([d.semi], SpellLine(d.rest));
      WordsOne(d.semi);
    } else {
      assert SpellLine(d) == SpellPipe(d.pipe) + d.amps;
    }
  }

  lemma {:induction false} PipeWords(d: Pipeline)
    requires PipeOk(d)
    ensures Toks(TreePipe(d)) == Words(SpellPipe(d))
    decreases d
  {
    CommandWords(d.c);
    if d.Piped? {
      PipeWords(d.next);
      WordsJoin(SpellCommand(d.c), [d.bar] + SpellPipe(d.next));
      WordsJoin([d.bar], SpellPipe(d.next));
      WordsOne(d.bar);
    } else {
      assert SpellPipe(d) == SpellCommand(d.c);
    }
  }

  lemma {:induction false} CommandWords(d: Command)
    requires CommandOk(d)
    ensures Toks(TreeCommand(d)) == Words(SpellCommand(d))
    decreases d
  {
    match d
    case Simple(items) =>
      ItemsWords(Exec([]), items);
      assert Toks(Exec([])) == multiset{};
    case Block(open, line, close, redirs) =>
      LineWords(line);
      ItemsWords(TreeLine(line), redirs);
      WordsJoin([open] + SpellLine(line) + [close], SpellItems(redirs));
      WordsJoin([open] + SpellLine(line), [close]);
      WordsJoin([open], SpellLine(line));
      WordsOne(open);
      WordsOne(close);
  }

  predicate StartsRedir(ts: seq<Lex>) { ts != [] && ts[0].kind in ['<', '>', '+'] }

  lemma NoItems(rest: seq<Lex>)
    ensures SpellItems([]) + rest == rest
  {
  }

  /** The first item's lexemes come first. */
  lemma SpellFirst(items: seq<Item>, rest: seq<Lex>)
    requires items != []
    ensures SpellItems(items) + rest == SpellItem(items[0]) + (SpellItems(items[1..]) + rest)
  {
    hide SpellItems, SpellItem, ApplyAll, Args;
    ApplyJoin(Exec([]), [items[0]], items[1..]);
    assert [items[0]] + items[1..] == items;
    SpellOne(items[0]);
    Assoc(SpellItem(items[0]), SpellItems(items[1..]), rest);
  }

  lemma SpellOne(i: Item)
    ensures SpellItems([i]) == SpellItem(i)
  {
    assert [i][..0] == [];
  }

  predicate FollowCommand(ts: seq<Lex>) { ts == [] || ts[0].kind in ['|', ')', '&', ';'] }

  predicate FollowPipe(ts: seq<Lex>) { ts == [] || ts[0].kind in [')', '&', ';'] }

  predicate FollowLine(ts: seq<Lex>) { ts == [] || ts[0].kind == ')' }

  predicate AtArg(left: seq<Item>) { left == [] || left[0].Arg? }

  ghost function Tail1(items: seq<Item>): seq<Item> { if items == [] then [] else items[1..] }

  /** The redirections in front. */
  ghost function Lead(items: seq<Item>): (r: seq<Item>)
    ensures r <= items
  {
    if items != [] && items[0].Red? then [items[0]] + Lead(items[1..]) else []
  }

  ghost function Past(items: seq<Item>): seq<Item> { items[|Lead(items)|..] }

  lemma {:induction false} LeadFacts(items: seq<Item>)
    ensures OnlyRedirs(Lead(items)) && AtArg(Past(items)) && Lead(items) + Past(items) == items
    decreases |items|
  {
    if items != [] && items[0].Red? {
      LeadFacts(items[1..]);
      assert Past(items) == Past(items[1..]);
    }
  }

  lemma LeadSplit(left: seq<Item>, rest: seq<Lex>)
    requires ItemsOk(left) && FollowCommand(rest)
    ensures OnlyRedirs(Lead(left)) && ItemsOk(Lead(left)) && ItemsOk(Past(left)) && AtArg(Past(left))
    ensures SpellItems(left) + rest == SpellItems(Lead(left)) + (SpellItems(Past(left)) + rest)
    ensures !StartsRedir(SpellItems(Past(left)) + rest)
  {
    hide SpellItems, ApplyAll, Args, Lead, Past;
    LeadFacts(left);
    SubItems(left, Lead(left), Past(left));
    ApplyJoin(Exec([]), Lead(left), Past(left));
    Assoc(SpellItems(Lead(left)), SpellItems(Past(left)), rest);
    if Past(left) == [] { NoItems(rest); } else { SpellFirst(Past(left), rest); }
  }

  lemma SubItems(items: seq<Item>, s: seq<Item>, t: seq<Item>)
    requires ItemsOk(items) && items == s + t
    ensures ItemsOk(s) && ItemsOk(t)
  {
    forall k | 0 <= k < |s| ensures ItemOk(s[k]) { assert s[k] == items[k]; }
    forall k | 0 <= k < |t| ensures ItemOk(t[k]) { assert t[k] == items[|s| + k]; }
  }

  /** With known lexemes ahead, the token is the next argument, or there is none. */
  lemma ArgIs(left: seq<Item>, rest: seq<Lex>, tok: char, q: nat, eq: nat)
    requires ItemsOk(left) && AtArg(left) && (left == [] ==> rest == [])
    requires var ts := SpellItems(left) + rest;
      if tok == '\0' then ts == [] else ts != [] && ts[0] == Lex(tok, q, eq)
    ensures tok == '\0' <==> left == []
    ensures left != [] ==>
      tok == 'a' && left[0] == Arg(Lex(tok, q, eq)) && Tail(SpellItems(left) + rest) == SpellItems(left[1..]) + rest
  {
    hide SpellItems;
    if left == [] { NoItems(rest); } else { SpellFirst(left, rest); }
  }

  lemma ArgsHead(left: seq<Item>)
    requires left != [] && left[0].Arg?
    ensures Args(left) == 1 + Args(left[1..])
  {
    hide ApplyAll, SpellItems;
    ApplyJoin(Exec([]), [left[0]], left[1..]);
    assert [left[0]] + left[1..] == left;
    assert [left[0]][..0] == [] && Args([]) == 0;
  }

  lemma LeadPast(left: seq<Item>, redirs: seq<Item>)
    requires left != [] && redirs == Lead(left[1..])
    ensures var more := [left[0]] + redirs; more <= left && left[|more|..] == Past(left[1..])
  {
  }

  lemma ArgsPart(w: seq<Item>, items: seq<Item>, left: seq<Item>)
    requires w == items + left
    ensures Args(items) + Args(left) == Args(w)
  {
    hide Args, ApplyAll, SpellItems;
    ApplyJoin(Exec([]), items, left);
  }

  lemma Consume(w: seq<Item>, items: seq<Item>, left: seq<Item>, more: seq<Item>)
    requires w == items + left && more <= left && ItemsOk(left)
    ensures w == (items + more) + left[|more|..] && ItemsOk(left[|more|..])
  {
    assert left == more + left[|more|..];
    SubItems(left, more, left[|more|..]);
  }

  const NOLINE: Line := Last(One(Simple([])), [])

  ghost function LineOf(w: Command): Line { if w.Block? then w.line else NOLINE }

  ghost function CloseOf(w: Command): Lex { if w.Block? then w.close else Lex(')', 0, 0) }

  ghost function RedirsOf(w: Command): seq<Item> { if w.Block? then w.redirs else [] }

  ghost function ItemsOf(w: Command): seq<Item> { if w.Simple? then w.items else [] }

  ghost function NextOf(w: Pipeline): Pipeline { if w.Piped? then w.next else w }

  ghost function RestOf(w: Line): Line { if w.Then? then w.rest else w }

  ghost function AfterCommand(w: Pipeline): seq<Lex> { if w.Piped? then [w.bar] + SpellPipe(w.next) else [] }

  ghost function AfterAmps(w: Line): seq<Lex> { if w.Then? then [w.semi] + SpellLine(w.rest) else [] }

  lemma BlockSplit(w: Command, rest: seq<Lex>)
    requires w.Block? && CommandOk(w)
    ensures SpellCommand(w) + rest == [w.open] + (SpellLine(w.line) + ([w.close] + (SpellItems(w.redirs) + rest)))
    ensures Tail(SpellCommand(w) + rest) == SpellLine(w.line) + ([w.close] + (SpellItems(w.redirs) + rest))
    ensures Tail([w.close] + (SpellItems(w.redirs) + rest)) == SpellItems(w.redirs) + rest
  {
    hide SpellLine, SpellItems, LineOk;
    var l, r, x := SpellLine(w.line), SpellItems(w.redirs),
      [w.open] + (SpellLine(w.line) + ([w.close] + (SpellItems(w.redirs) + rest)));
    assert [w.open] + l + [w.close] + r + rest == x;
    assert x[1..] == l + ([w.close] + (r + rest));
    assert ([w.close] + (r + rest))[1..] == r + rest;
  }

  lemma BlockIs(open: Lex, inner: Line, close: Lex, redirs: seq<Item>)
    ensures SpellCommand(Block(open, inner, close, redirs)) ==
      [open] + SpellLine(inner) + ([close] + SpellItems(redirs))
  {
    hide SpellLine, SpellItems;
    Assoc([open] + SpellLine(inner), [close], SpellItems(redirs));
  }

  lemma PipeSplit(w: Pipeline, rest: seq<Lex>)
    requires PipeOk(w) && FollowPipe(rest)
    ensures SpellPipe(w) + rest == SpellCommand(w.c) + (AfterCommand(w) + rest) && FollowCommand(AfterCommand(w) + rest)
    ensures CommandOk(w.c)
  {
    hide SpellCommand, CommandOk;
    Assoc(SpellCommand(w.c), AfterCommand(w), rest);
  }

  lemma BarSplit(w: Pipeline, rest: seq<Lex>)
    requires PipeOk(w) && w.Piped?
    ensures Tail(AfterCommand(w) + rest) == SpellPipe(w.next) + rest && (AfterCommand(w) + rest)[0] == w.bar
  {
    hide SpellPipe;
    assert AfterCommand(w) + rest == [w.bar] + (SpellPipe(w.next) + rest);
  }

  lemma JustCommand(c: Command)
    ensures SpellPipe(One(c)) == SpellCommand(c)
  {
    hide SpellCommand;
  }

  lemma WithNext(c: Command, t: Lex, dr: Pipeline)
    ensures SpellPipe(Piped(c, t, dr)) == SpellPipe(One(c)) + ([t] + SpellPipe(dr))
  {
    hide SpellCommand;
  }

  lemma LineSplit(w: Line, rest: seq<Lex>)
    requires LineOk(w) && FollowLine(rest)
    ensures SpellLine(w) + rest == SpellPipe(w.pipe) + (w.amps + (AfterAmps(w) + rest)) && PipeOk(w.pipe)
    ensures FollowPipe(w.amps + (AfterAmps(w) + rest))
  {
    hide SpellPipe, PipeOk;
    var x, tail := SpellPipe(w.pipe), AfterAmps(w);
    assert SpellLine(w) == x + w.amps + tail;
    assert (x + w.amps + tail) + rest == x + (w.amps + (tail + rest));
    if w.amps == [] { assert w.amps + (tail + rest) == tail + rest; }
  }

  lemma SemiSplit(w: Line, rest: seq<Lex>)
    requires LineOk(w) && w.Then?
    ensures Tail(AfterAmps(w) + rest) == SpellLine(w.rest) + rest && (AfterAmps(w) + rest)[0] == w.semi
      && LineOk(w.rest)
  {
    hide SpellLine;
    assert AfterAmps(w) + rest == [w.semi] + (SpellLine(w.rest) + rest);
  }

  lemma NoSemi(w: Line, rest: seq<Lex>)
    requires w.Last?
    ensures AfterAmps(w) + rest == rest
  {
  }

  lemma JustPipe(pipe: Pipeline)
    requires PipeOk(pipe)
    ensures SpellLine(Last(pipe, [])) == SpellPipe(pipe) && TreeLine(Last(pipe, [])) == TreePipe(pipe)
      && LineOk(Last(pipe, []))
  {
    hide SpellPipe, TreePipe, PipeOk;
  }

  lemma OneAmp(d: Line, t: Lex)
    requires d.Last? && LineOk(d) && t.kind == '&'
    ensures var e := Last(d.pipe, d.amps + [t]);
      LineOk(e) && SpellLine(e) == SpellLine(d) + [t] && TreeLine(e) == Back(TreeLine(d))
  {
    hide SpellPipe, TreePipe, PipeOk;
  }

  lemma AmpTail(done: seq<Lex>, left: seq<Lex>, tail: seq<Lex>, t: Lex)
    requires left != [] && |done| > 0 && done[|done| - 1] == t
    ensures (left + tail)[1..] == left[1..] + tail && (left + tail)[0] == left[0]
    ensures t == left[0] ==> done[..|done| - 1] + left == done + left[1..]
  {
    assert done == done[..|done| - 1] + [t];
    if t == left[0] { assert left == [t] + left[1..]; }
  }

  lemma WithRest(d: Line, t: Lex, dr: Line)
    requires d.Last? && LineOk(d) && t.kind == ';' && LineOk(dr)
    ensures var e := Then(d.pipe, d.amps, t, dr);
      LineOk(e) && SpellLine(e) == SpellLine(d) + ([t] + SpellLine(dr))
        && TreeLine(e) == List(TreeLine(d), TreeLine(dr))
  {
    hide SpellPipe, TreePipe, PipeOk;
  }

  lemma {:induction false} OnlyRedirsArgs(items: seq<Item>)
    requires OnlyRedirs(items)
    ensures Args(items) == 0
    decreases |items|
  {
    if items != [] { OnlyRedirsArgs(items[..|items| - 1]); }
  }
}
