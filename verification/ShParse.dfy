/**
 The shell's parser (xv6/user/sh.c): a recursive descent over the line with one
 symbol of look-ahead, and nulterminate, which writes the NULs into the line
 itself.
 */
module ShParse {
  import opened ShLex
  import opened ShGrammar
  import opened ShOrder

  class Parser {
    const line: string
    var ps: nat

    constructor (s: string)
      requires '\0' !in s
      ensures line == s && ps == 0 && Ready()
    {
      line, ps := s, 0;
    }

    ghost predicate Ready()
      reads this
    {
      CursorOk(line, ps)
    }

    function At(s: nat): char { if s < |line| then line[s] else '\0' }

    /** s after the white space at s0. */
    method SkipWhite(s0: nat) returns (s: nat)
      requires s0 <= |line|
      ensures Blank(line, s0, s) && (s < |line| ==> !White(line[s]))
    {
      s := s0;
      while s < |line| && White(line[s])
        invariant Blank(line, s0, s)
      {
        s := s + 1;
      }
    }

    /**
     peek: past white space, and whether one of toks is there.  Here and below,
     when go holds the rest of the line is known to be the lexemes ts.
     */
    method Peek(toks: string, ghost go: bool, ghost ts: seq<Lex>) returns (yes: bool)
      requires Ready() && (go ==> Ahead(ts))
      modifies this`ps
      ensures Ready() && Blank(line, old(ps), ps) && (ps < |line| ==> !White(line[ps]))
      ensures yes <==> ps < |line| && line[ps] in toks
      ensures go ==> Ahead(ts) && Shows(line, ts, ps)
    {
      ps := SkipWhite(ps);
      yes := At(ps) != '\0' && At(ps) in toks;
      if go { PeekShows(line, ts, old(ps), ps); }
    }

    /** The lexemes ts are what is left of the line. */
    ghost predicate Ahead(ts: seq<Lex>)
      reads this
    {
      Lexes(line, ts, ps, |line|)
    }

    /** gettoken: 'a' for a word, '+' for >>, 0 at the end, and otherwise the symbol. */
    method Gettoken() returns (tok: char, q: nat, eq: nat)
      requires Ready()
      modifies this`ps
      ensures Ready() && old(ps) <= ps && (tok == '\0' ==> Blank(line, old(ps), ps) && ps == |line|)
      ensures tok != '\0' ==> old(ps) < ps && Lexes(line, [Lex(tok, q, eq)], old(ps), ps)
      ensures old(ps) < |line| && Symbol(line[old(ps)]) ==> tok == line[old(ps)] || (tok == '+' && line[old(ps)] == '>')
    {
      var s := SkipWhite(ps);
      q := s;
      tok := At(s);
      if tok == '\0' {
      } else if tok in "|();&<" {
        s := s + 1;
      } else if tok == '>' {
        s := s + 1;
        if At(s) == '>' {
          tok := '+';
          s := s + 1;
        }
      } else {
        tok := 'a';
        while s < |line| && !White(line[s]) && !Symbol(line[s])
          invariant q <= s <= |line| && forall x :: q <= x < s ==> WordAt(line, x)
        {
          s := s + 1;
        }
      }
      eq := s;
      ps := SkipWhite(s);
      if tok != '\0' { OneLex(line, old(ps), Lex(tok, q, eq), ps); }
    }

    /** gettoken when the lexemes ahead are known: it returns the first of them. */
    method NextToken(ghost go: bool, ghost ts: seq<Lex>) returns (tok: char, q: nat, eq: nat)
      requires Ready() && (go ==> Ahead(ts))
      modifies this`ps
      ensures Ready() && old(ps) <= ps && (tok == '\0' ==> Blank(line, old(ps), ps))
      ensures tok != '\0' ==> old(ps) < ps && Lexes(line, [Lex(tok, q, eq)], old(ps), ps)
      ensures old(ps) < |line| && Symbol(line[old(ps)]) ==> tok == line[old(ps)] || (tok == '+' && line[old(ps)] == '>')
      ensures go && tok == '\0' ==> ts == [] && Ahead([])
      ensures go && tok != '\0' ==> ts != [] && ts[0] == Lex(tok, q, eq) && Ahead(ts[1..])
    {
      tok, q, eq := Gettoken();
      if go {
        if tok == '\0' { NoToken(line, ts, old(ps)); } else { TokenIs(line, ts, old(ps), Lex(tok, q, eq), ps); }
      }
    }

    /** A symbol that peek has just seen. */
    method Eat(ghost go: bool, ghost ts: seq<Lex>) returns (tok: char, ghost t: Lex)
      requires Ready() && ps < |line| && Symbol(line[ps]) && (go ==> Ahead(ts))
      modifies this`ps
      ensures Ready() && old(ps) < ps && t.kind == tok && Lexes(line, [t], old(ps), ps)
      ensures tok == old(line[ps]) || (tok == '+' && old(line[ps]) == '>')
      ensures go ==> ts != [] && ts[0] == t && Ahead(ts[1..])
    {
      hide Lexes;
      var q, eq;
      tok, q, eq := NextToken(go, ts);
      t := Lex(tok, q, eq);
    }

    /** A symbol whose kind peek has settled. */
    method EatSymbol(ghost go: bool, ghost ts: seq<Lex>) returns (ghost t: Lex)
      requires Ready() && ps < |line| && Symbol(line[ps]) && line[ps] != '>' && (go ==> Ahead(ts))
      modifies this`ps
      ensures Ready() && old(ps) < ps && t.kind == old(line[ps]) && Lexes(line, [t], old(ps), ps)
      ensures go ==> ts != [] && ts[0] == t && Ahead(ts[1..])
    {
      var tok;
      tok, t := Eat(go, ts);
    }

    lemma Nothing(c: Cmd, p: nat)
      requires CursorOk(line, p)
      ensures ApplyAll(c, []) == c && SpellItems([]) == [] && Lexes(line, [], p, p)
    {
    }

    /** White space after lexemes. */
    lemma Pass(ts: seq<Lex>, a: nat, b: nat, c: nat)
      requires Lexes(line, ts, a, b) && Blank(line, b, c)
      ensures Lexes(line, ts, a, c)
    {
      LexesJoin(line, ts, [], a, b, c);
      assert ts + [] == ts;
    }

    /** Lexemes, then a symbol, then lexemes. */
    lemma Around(l: seq<Lex>, t: Lex, r: seq<Lex>, a: nat, b: nat, c: nat, e: nat)
      requires Lexes(line, l, a, b) && Lexes(line, [t], b, c) && Lexes(line, r, c, e)
      ensures Lexes(line, l + ([t] + r), a, e)
    {
      LexesJoin(line, [t], r, b, c, e);
      LexesJoin(line, l, [t] + r, a, b, e);
    }

    /** One redirection: the operator and its file. */
    method OneRedir(c: Cmd, ghost items: seq<Item>, ghost cmd0: Cmd, ghost from: nat,
                    ghost go: bool, ghost w: seq<Item>, ghost rest: seq<Lex>)
      returns (ok: bool, cmd: Cmd, ghost red: Item)
      requires Ready() && from <= ps < |line| && line[ps] in "<>"
      requires c == ApplyAll(cmd0, items) && Lexes(line, SpellItems(items), from, ps)
      requires go ==> w != [] && ItemsOk(w) && w[0].Red? && Ahead(SpellItems(w) + rest)
      modifies this`ps
      ensures Ready() && old(ps) < ps
      ensures ok ==> ItemOk(red) && red.Red? && cmd == ApplyAll(cmd0, items + [red])
      ensures ok ==> Lexes(line, SpellItems(items + [red]), from, ps)
      ensures go ==> ok && red == w[0] && Ahead(SpellItems(w[1..]) + rest)
    {
      hide Lexes, LexOk, Boundary, ApplyAll, SpellItems;
      ghost var a := ps;
      ghost var ts := SpellItems(w) + rest;
      if go { SpellFirst(w, rest); }
      var tok; ghost var op;
      tok, op := Eat(go, ts);
      ghost var b := ps;
      var t, q, eq := NextToken(go, Tail(ts));
      cmd, red := c, Red(op, Lex(t, q, eq));
      if t != 'a' { return false, cmd, red; }
      LexesJoin(line, [op], [red.w], a, b, ps);
      assert [op] + [red.w] == SpellItem(red);
      LexesJoin(line, SpellItems(items), SpellItem(red), from, a, ps);
      ApplyOne(cmd0, items, red);
      if tok == '<' {
        cmd := Redir(cmd, (q, eq), O_RDONLY, 0);
      } else if tok == '>' {
        cmd := Redir(cmd, (q, eq), O_WRONLY + O_CREATE + O_TRUNC, 1);
      } else {
        cmd := Redir(cmd, (q, eq), O_WRONLY + O_CREATE, 1);
      }
      ok := true;
    }

    /** Redirections wrap the command; false is the panic for a missing file. */
    method Parseredirs(c: Cmd, ghost go: bool, ghost w: seq<Item>, ghost rest: seq<Lex>)
      returns (ok: bool, cmd: Cmd, ghost items: seq<Item>)
      requires Ready()
      requires go ==> ItemsOk(w) && OnlyRedirs(w) && Ahead(SpellItems(w) + rest) && !StartsRedir(rest)
      modifies this`ps
      ensures Ready() && old(ps) <= ps
      ensures ok ==> ItemsOk(items) && OnlyRedirs(items) && cmd == ApplyAll(c, items)
      ensures ok ==> Lexes(line, SpellItems(items), old(ps), ps)
      ensures go ==> ok && items == w && Ahead(rest)
    {
      hide Lexes, LexOk, Boundary, ApplyAll, SpellItems;
      cmd, items := c, [];
      ghost var left := w;
      Nothing(c, old(ps));
      var more := Peek("<>", go, SpellItems(left) + rest);
      Pass([], old(ps), old(ps), ps);
      if go { RedirShows(left, rest); }
      while more
        invariant Ready() && old(ps) <= ps && (more ==> ps < |line| && line[ps] in "<>")
        invariant ItemsOk(items) && OnlyRedirs(items) && cmd == ApplyAll(c, items)
          && Lexes(line, SpellItems(items), old(ps), ps)
        invariant go ==> items + left == w && ItemsOk(left) && OnlyRedirs(left) && Ahead(SpellItems(left) + rest)
        invariant go ==> (more <==> left != [])
        decreases |line| - ps
      {
        ghost var red;
        ok, cmd, red := OneRedir(cmd, items, c, old(ps), go, left, rest);
        if !ok { return; }
        items := items + [red];
        if go { left := left[1..]; }
        ghost var b := ps;
        more := Peek("<>", go, SpellItems(left) + rest);
        Pass(SpellItems(items), old(ps), b, ps);
        if go { RedirShows(left, rest); }
      }
      if go { NoItems(rest); }
      ok := true;
    }

    /** peek for a redirection answers whether one is left. */
    lemma RedirShows(left: seq<Item>, rest: seq<Lex>)
      requires Ready() && ItemsOk(left) && OnlyRedirs(left) && !StartsRedir(rest)
        && Shows(line, SpellItems(left) + rest, ps)
      ensures ps < |line| && line[ps] in "<>" <==> left != []
      ensures left == [] ==> SpellItems(left) + rest == rest
    {
      if left != [] { SpellFirst(left, rest); }
    }

    /** An argument and the redirections after it. */
    method OneArg(c: Cmd, ghost items: seq<Item>, argc: nat, ghost from: nat,
                  ghost go: bool, ghost left: seq<Item>, ghost rest: seq<Lex>)
      returns (ok: bool, end: bool, cmd: Cmd, ghost more: seq<Item>)
      requires Ready() && from <= ps && argc < MAXARGS
      requires ItemsOk(items) && Args(items) == argc && c == ApplyAll(Exec([]), items)
        && Lexes(line, SpellItems(items), from, ps)
      requires go ==> ItemsOk(left) && AtArg(left) && Args(items) + Args(left) < MAXARGS
      requires go ==> FollowCommand(rest) && Ahead(SpellItems(left) + rest) && (left == [] ==> rest == [])
      modifies this`ps
      ensures Ready() && old(ps) <= ps && (ok && !end ==> old(ps) < ps)
      ensures ok ==> Lexes(line, SpellItems(items + more), from, ps) && cmd == ApplyAll(Exec([]), items + more)
      ensures ok ==> ItemsOk(items + more) && Args(items + more) == argc + (if end then 0 else 1) < MAXARGS
      ensures ok && end ==> more == []
      ensures go ==> ok && (end <==> left == []) && more <= left && AtArg(left[|more|..])
      ensures go ==> Ahead(SpellItems(left[|more|..]) + rest)
    {
      hide Lexes, LexOk, Boundary, ApplyAll, SpellItems, Args;
      ghost var a, ts := ps, SpellItems(left) + rest;
      var tok, q, eq := NextToken(go, ts);
      if go { ArgIs(left, rest, tok, q, eq); }
      cmd, more, end := c, [], false;
      if tok == '\0' {
        Pass(SpellItems(items), from, a, ps);
        assert items + [] == items;
        return true, true, cmd, [];
      }
      if tok != 'a' { return false, false, cmd, []; }
      ghost var arg := Arg(Lex(tok, q, eq));
      LexesJoin(line, SpellItems(items), SpellItem(arg), from, a, ps);
      ApplyOne(Exec([]), items, arg);
      SimpleStays(Exec([]), items);
      cmd := AddArg(cmd, (q, eq));
      if go { ArgsHead(left); }
      if argc + 1 >= MAXARGS { return false, false, cmd, []; }
      ghost var b, left1 := ps, Tail1(left);
      if go { LeadSplit(left1, rest); }
      ghost var redirs;
      ok, cmd, redirs := Parseredirs(cmd, go, Lead(left1), SpellItems(Past(left1)) + rest);
      if !ok { return; }
      more := [arg] + redirs;
      Extended(items, arg, redirs, from, b);
      if go { LeadPast(left, redirs); }
    }

    /** An argument and redirections added to what has been parsed. */
    lemma Extended(items: seq<Item>, arg: Item, redirs: seq<Item>, from: nat, b: nat)
      requires ItemsOk(items) && ItemOk(arg) && arg.Arg? && ItemsOk(redirs) && OnlyRedirs(redirs)
      requires Lexes(line, SpellItems(items + [arg]), from, b) && Lexes(line, SpellItems(redirs), b, ps)
      ensures Lexes(line, SpellItems(items + ([arg] + redirs)), from, ps) && ItemsOk(items + ([arg] + redirs))
      ensures ApplyAll(Exec([]), items + ([arg] + redirs)) == ApplyAll(ApplyAll(Exec([]), items + [arg]), redirs)
      ensures Args(items + ([arg] + redirs)) == Args(items) + 1
    {
      hide Lexes, SpellItems, ApplyAll, Args;
      assert items + ([arg] + redirs) == (items + [arg]) + redirs;
      ApplyJoin(Exec([]), items + [arg], redirs);
      LexesJoin(line, SpellItems(items + [arg]), SpellItems(redirs), from, b, ps);
      OnlyRedirsArgs(redirs);
      ApplyOne(Exec([]), items, arg);
    }

    /** parseexec without parentheses: words and redirections in any order up to one of |)&; or the end. */
    method ParseSimple(ghost go: bool, ghost w: seq<Item>, ghost rest: seq<Lex>)
      returns (ok: bool, cmd: Cmd, ghost items: seq<Item>)
      requires Ready()
      requires go ==> ItemsOk(w) && Args(w) < MAXARGS && FollowCommand(rest) && Ahead(SpellItems(w) + rest)
      modifies this`ps
      ensures Ready() && old(ps) <= ps
      ensures ok ==> ItemsOk(items) && Args(items) < MAXARGS && cmd == ApplyAll(Exec([]), items)
      ensures ok ==> Lexes(line, SpellItems(items), old(ps), ps)
      ensures go ==> ok && items == w && Ahead(rest)
    {
      hide Lexes, LexOk, Boundary, SpellItems, ApplyAll, Args, Lead, Past;
      ghost var left := Past(w);
      if go { LeadSplit(w, rest); }
      ok, cmd, items := Parseredirs(Exec([]), go, Lead(w), SpellItems(left) + rest);
      if !ok { return; }
      OnlyRedirsArgs(items);
      if go { LeadFacts(w); }
      var argc := 0;
      ghost var a := ps;
      var stop := Peek("|)&;", go, SpellItems(left) + rest);
      Pass(SpellItems(items), old(ps), a, ps);
      if go { StopShows(left, rest); ArgsPart(w, items, left); }
      while !stop
        invariant Ready() && old(ps) <= ps && ItemsOk(items) && Args(items) == argc < MAXARGS
        invariant cmd == ApplyAll(Exec([]), items) && Lexes(line, SpellItems(items), old(ps), ps)
        invariant go ==> items + left == w && ItemsOk(left) && AtArg(left) && Args(items) + Args(left) < MAXARGS
        invariant go ==> Ahead(SpellItems(left) + rest) && (stop <==> left == [] && rest != [])
        decreases |line| - ps
      {
        var end; ghost var more;
        ok, end, cmd, more := OneArg(cmd, items, argc, old(ps), go, left, rest);
        if !ok { return; }
        if go { Consume(w, items, left, more); }
        items := items + more;
        if go { left := left[|more|..]; }
        if end { break; }
        argc := argc + 1;
        a := ps;
        stop := Peek("|)&;", go, SpellItems(left) + rest);
        Pass(SpellItems(items), old(ps), a, ps);
        if go { StopShows(left, rest); ArgsPart(w, items, left); }
      }
      if go { NoItems(rest); }
      ok := true;
    }

    /** peek for the end of a command answers whether nothing of it is left. */
    lemma StopShows(left: seq<Item>, rest: seq<Lex>)
      requires ItemsOk(left) && AtArg(left) && FollowCommand(rest) && Shows(line, SpellItems(left) + rest, ps)
      ensures ps < |line| && line[ps] in "|)&;" <==> left == [] && rest != []
    {
      hide SpellItems;
      if left == [] { NoItems(rest); } else { SpellFirst(left, rest); }
    }

    /** parseline: a pipeline, any number of &, and after ; the rest of the line. */
    method Parseline(ghost go: bool, ghost w: Line, ghost rest: seq<Lex>) returns (ok: bool, cmd: Cmd, ghost d: Line)
      requires Ready()
      requires go ==> LineOk(w) && FollowLine(rest) && Ahead(SpellLine(w) + rest)
      modifies this`ps
      ensures Ready() && old(ps) <= ps
      ensures ok ==> LineOk(d) && cmd == TreeLine(d) && Lexes(line, SpellLine(d), old(ps), ps)
      ensures go ==> ok && d == w && Ahead(rest)
      decreases |line| - ps, 3
    {
      hide Lexes, LexOk, Boundary, PipeOk, SpellPipe, TreePipe, SpellLine, TreeLine, LineOk;
      ghost var from, tail := ps, AfterAmps(w) + rest;
      if go { LineSplit(w, rest); }
      ghost var pipe;
      ok, cmd, pipe := Parsepipe(go, w.pipe, w.amps + tail);
      d := Last(pipe, []);
      if !ok { return; }
      JustPipe(pipe);
      ok, cmd, d := ParseAmps(cmd, d, from, go, w, rest);
      ghost var mid := ps;
      var more := Peek(";", go, tail);
      Pass(SpellLine(d), from, mid, ps);
      if go { SemiShows(w, rest); }
      if more {
        mid := ps;
        ghost var t := EatSymbol(go, tail);
        ghost var next := ps;
        if go { SemiSplit(w, rest); }
        var after; ghost var dr;
        ok, after, dr := Parseline(go, RestOf(w), rest);
        if !ok { return; }
        Around(SpellLine(d), t, SpellLine(dr), from, mid, next, ps);
        WithRest(d, t, dr);
        d := Then(pipe, d.amps, t, dr);
        cmd := List(cmd, after);
      } else if go {
        NoSemi(w, rest);
      }
    }

    /** parseline's loop over &. */
    method ParseAmps(c: Cmd, ghost d0: Line, ghost from: nat, ghost go: bool, ghost w: Line, ghost rest: seq<Lex>)
      returns (ok: bool, cmd: Cmd, ghost d: Line)
      requires Ready() && from <= ps && d0 == Last(d0.pipe, []) && LineOk(d0) && c == TreeLine(d0)
        && Lexes(line, SpellLine(d0), from, ps)
      requires go ==> LineOk(w) && FollowLine(rest) && Ahead(w.amps + (AfterAmps(w) + rest)) && d0.pipe == w.pipe
      modifies this`ps
      ensures Ready() && old(ps) <= ps && ok
      ensures d.Last? && d.pipe == d0.pipe && LineOk(d) && cmd == TreeLine(d) && Lexes(line, SpellLine(d), from, ps)
      ensures go ==> d.amps == w.amps && Ahead(AfterAmps(w) + rest)
    {
      hide Lexes, LexOk, Boundary, PipeOk, SpellPipe, TreePipe, SpellLine, TreeLine, LineOk, AfterAmps;
      cmd, d, ok := c, d0, true;
      ghost var left, tail := w.amps, AfterAmps(w) + rest;
      ghost var mid := ps;
      var more := Peek("&", go, left + tail);
      Pass(SpellLine(d), from, mid, ps);
      if go { AmpShows(w, d.amps, left, rest); }
      while more
        invariant Ready() && old(ps) <= ps && (more ==> ps < |line| && line[ps] == '&')
        invariant d.Last? && d.pipe == d0.pipe && LineOk(d) && cmd == TreeLine(d) && Lexes(line, SpellLine(d), from, ps)
        invariant go ==> d.amps + left == w.amps && Ahead(left + tail) && (more <==> left != [])
        decreases |line| - ps
      {
        mid := ps;
        ghost var t := EatSymbol(go, left + tail);
        LexesJoin(line, SpellLine(d), [t], from, mid, ps);
        OneAmp(d, t);
        d := Last(d.pipe, d.amps + [t]);
        if go {
          AmpTail(d.amps, left, tail, t);
          left := left[1..];
        }
        cmd := Back(cmd);
        mid := ps;
        more := Peek("&", go, left + tail);
        Pass(SpellLine(d), from, mid, ps);
        if go { AmpShows(w, d.amps, left, rest); }
      }
      if go { assert left + tail == tail; }
    }

    lemma AmpShows(w: Line, done: seq<Lex>, left: seq<Lex>, rest: seq<Lex>)
      requires LineOk(w) && FollowLine(rest) && done + left == w.amps
      requires Shows(line, left + (AfterAmps(w) + rest), ps)
      ensures ps < |line| && line[ps] in "&" <==> left != []
    {
      if left != [] {
        assert left[0] == w.amps[|done|];
        assert (left + (AfterAmps(w) + rest))[0] == left[0];
      } else {
        assert left + (AfterAmps(w) + rest) == AfterAmps(w) + rest;
      }
    }

    lemma SemiShows(w: Line, rest: seq<Lex>)
      requires LineOk(w) && FollowLine(rest) && Shows(line, AfterAmps(w) + rest, ps)
      ensures ps < |line| && line[ps] in ";" <==> w.Then?
    {
    }

    /** parsepipe: a command, and after | the rest of the pipeline. */
    method Parsepipe(ghost go: bool, ghost w: Pipeline, ghost rest: seq<Lex>)
      returns (ok: bool, cmd: Cmd, ghost d: Pipeline)
      requires Ready()
      requires go ==> PipeOk(w) && FollowPipe(rest) && Ahead(SpellPipe(w) + rest)
      modifies this`ps
      ensures Ready() && old(ps) <= ps
      ensures ok ==> PipeOk(d) && cmd == TreePipe(d) && Lexes(line, SpellPipe(d), old(ps), ps)
      ensures go ==> ok && d == w && Ahead(rest)
      decreases |line| - ps, 2
    {
      hide Lexes, LexOk, Boundary, CommandOk, SpellCommand, TreeCommand, SpellPipe;
      ghost var from, tail := ps, AfterCommand(w) + rest;
      if go { PipeSplit(w, rest); }
      ghost var c;
      ok, cmd, c := Parseexec(go, w.c, tail);
      d := One(c);
      if !ok { return; }
      JustCommand(c);
      ghost var mid := ps;
      var more := Peek("|", go, tail);
      Pass(SpellPipe(d), from, mid, ps);
      if go { BarShows(w, rest); }
      if more {
        mid := ps;
        ghost var t := EatSymbol(go, tail);
        ghost var next := ps;
        if go { BarSplit(w, rest); }
        var after; ghost var dr;
        ok, after, dr := Parsepipe(go, NextOf(w), rest);
        if !ok { return; }
        Around(SpellPipe(d), t, SpellPipe(dr), from, mid, next, ps);
        WithNext(c, t, dr);
        d := Piped(c, t, dr);
        cmd := Pipe(cmd, after);
      } else if go {
        assert AfterCommand(w) + rest == rest;
      }
    }

    lemma BarShows(w: Pipeline, rest: seq<Lex>)
      requires PipeOk(w) && FollowPipe(rest) && Shows(line, AfterCommand(w) + rest, ps)
      ensures ps < |line| && line[ps] in "|" <==> w.Piped?
    {
    }

    /** parseblock: a line in parentheses, and redirections. */
    method Parseblock(ghost go: bool, ghost w: Command, ghost rest: seq<Lex>)
      returns (ok: bool, cmd: Cmd, ghost d: Command)
      requires Ready()
      requires go ==> w.Block? && CommandOk(w) && FollowCommand(rest) && Ahead(SpellCommand(w) + rest)
      modifies this`ps
      ensures Ready() && old(ps) <= ps
      ensures ok ==> CommandOk(d) && cmd == TreeCommand(d) && Lexes(line, SpellCommand(d), old(ps), ps)
      ensures go ==> ok && d == w && Ahead(rest)
      decreases |line| - ps, 0
    {
      hide Lexes, LexOk, Boundary, LineOk, SpellLine, TreeLine, SpellItems, ApplyAll, SpellCommand;
      ghost var from, ts := ps, SpellCommand(w) + rest;
      if go { BlockSplit(w, rest); }
      d := Simple([]);
      Nothing(Exec([]), from);
      var more := Peek("(", go, ts);
      Pass([], from, from, ps);
      if !more { return false, Exec([]), d; }
      ghost var a := ps;
      ghost var open := EatSymbol(go, ts);
      ghost var b := ps;
      ghost var inner;
      ok, cmd, inner := Parseline(go, LineOf(w), [CloseOf(w)] + (SpellItems(RedirsOf(w)) + rest));
      if !ok { return; }
      Around([], open, SpellLine(inner), from, a, b, ps);
      assert [] + ([open] + SpellLine(inner)) == [open] + SpellLine(inner);
      b := ps;
      more := Peek(")", go, [CloseOf(w)] + (SpellItems(RedirsOf(w)) + rest));
      Pass([open] + SpellLine(inner), from, b, ps);
      if !more { return false, cmd, d; }
      a := ps;
      ghost var close := EatSymbol(go, [CloseOf(w)] + (SpellItems(RedirsOf(w)) + rest));
      b := ps;
      ghost var redirs;
      ok, cmd, redirs := Parseredirs(cmd, go, RedirsOf(w), rest);
      if !ok { return; }
      Around([open] + SpellLine(inner), close, SpellItems(redirs), from, a, b, ps);
      BlockIs(open, inner, close, redirs);
      d := Block(open, inner, close, redirs);
    }

    /** parseexec: a block, or words and redirections. */
    method Parseexec(ghost go: bool, ghost w: Command, ghost rest: seq<Lex>)
      returns (ok: bool, cmd: Cmd, ghost d: Command)
      requires Ready()
      requires go ==> CommandOk(w) && FollowCommand(rest) && Ahead(SpellCommand(w) + rest)
      modifies this`ps
      ensures Ready() && old(ps) <= ps
      ensures ok ==> CommandOk(d) && cmd == TreeCommand(d) && Lexes(line, SpellCommand(d), old(ps), ps)
      ensures go ==> ok && d == w && Ahead(rest)
      decreases |line| - ps, 1
    {
      hide Lexes, LexOk, Boundary, SpellItems, ApplyAll, SpellLine, LineOk, TreeLine, Args;
      ghost var from := ps;
      Nothing(Exec([]), from);
      var block := Peek("(", go, SpellCommand(w) + rest);
      ghost var a := ps;
      Pass([], from, from, a);
      if go { BlockShows(w, rest); }
      if block {
        ok, cmd, d := Parseblock(go, w, rest);
      } else {
        ghost var items;
        ok, cmd, items := ParseSimple(go, ItemsOf(w), rest);
        d := Simple(items);
      }
      if ok {
        LexesJoin(line, [], SpellCommand(d), from, a, ps);
        assert [] + SpellCommand(d) == SpellCommand(d);
      }
    }

    lemma BlockShows(w: Command, rest: seq<Lex>)
      requires CommandOk(w) && FollowCommand(rest) && Shows(line, SpellCommand(w) + rest, ps)
      ensures ps < |line| && line[ps] in "(" <==> w.Block?
    {
      hide SpellItems, SpellLine, LineOk, Args;
      match w
      case Simple(items) => if items == [] { NoItems(rest); } else { SpellFirst(items, rest); }
      case Block(_, _, _, _) => BlockSplit(w, rest);
    }
  }

  /** The C string at position q of a buffer. */
  function StringAt(s: seq<char>, q: nat): string
    decreases |s| - q
  {
    if q >= |s| || s[q] == '\0' then "" else [s[q]] + StringAt(s, q + 1)
  }

  /** Where nulterminate writes. */
  ghost function Ends(c: Cmd): set<nat> {
    match c
    case Exec(argv) => set k | 0 <= k < |argv| :: argv[k].1
    case Redir(d, file, _, _) => Ends(d) + {file.1}
    case Pipe(l, r) => Ends(l) + Ends(r)
    case List(l, r) => Ends(l) + Ends(r)
    case Back(d) => Ends(d)
  }

  lemma {:induction false} EndsOfToks(c: Cmd, e: nat)
    requires e in Ends(c)
    ensures exists q: nat :: (q, e) in Toks(c)
  {
    match c
    case Exec(argv) =>
      var k :| 0 <= k < |argv| && argv[k].1 == e;
      assert argv[k] in multiset(argv);
    case Redir(d, file, _, _) =>
      if e in Ends(d) { EndsOfToks(d, e); } else { assert file in Toks(c); }
    case Pipe(l, r) => if e in Ends(l) { EndsOfToks(l, e); } else { EndsOfToks(r, e); }
    case List(l, r) => if e in Ends(l) { EndsOfToks(l, e); } else { EndsOfToks(r, e); }
    case Back(d) => EndsOfToks(d, e);
  }

  lemma {:induction false} TokHasEnd(c: Cmd, t: Tok)
    requires t in Toks(c)
    ensures t.1 in Ends(c)
  {
    match c
    case Exec(argv) =>
      assert t in argv;
      var k :| 0 <= k < |argv| && argv[k] == t;
    case Redir(d, file, _, _) => if t in Toks(d) { TokHasEnd(d, t); }
    case Pipe(l, r) => if t in Toks(l) { TokHasEnd(l, t); } else { TokHasEnd(r, t); }
    case List(l, r) => if t in Toks(l) { TokHasEnd(l, t); } else { TokHasEnd(r, t); }
    case Back(d) => TokHasEnd(d, t);
  }

  /** nulterminate: a NUL after every argument and file of the command, nothing else. */
  method Nulterminate(buf: array<char>, cmd: Cmd)
    requires forall e :: e in Ends(cmd) ==> e < buf.Length
    modifies buf
    ensures forall x: nat :: x < buf.Length ==> buf[x] == if x in Ends(cmd) then '\0' else old(buf[x])
    decreases cmd
  {
    match cmd
    case Exec(argv) =>
      var i := 0;
      while i < |argv|
        invariant 0 <= i <= |argv|
        invariant forall x: nat :: x < buf.Length ==>
          buf[x] == if exists k :: 0 <= k < i && argv[k].1 == x then '\0' else old(buf[x])
      {
        assert argv[i].1 in Ends(cmd);
        buf[argv[i].1] := '\0';
        i := i + 1;
      }
    case Redir(c, file, _, _) =>
      assert Ends(cmd) == Ends(c) + {file.1};
      Nulterminate(buf, c);
      buf[file.1] := '\0';
    case Pipe(l, r) =>
      assert Ends(cmd) == Ends(l) + Ends(r);
      Nulterminate(buf, l);
      Nulterminate(buf, r);
    case List(l, r) =>
      assert Ends(cmd) == Ends(l) + Ends(r);
      Nulterminate(buf, l);
      Nulterminate(buf, r);
    case Back(c) =>
      assert Ends(cmd) == Ends(c);
      Nulterminate(buf, c);
  }

  lemma {:induction false} ReadsStretch(s: seq<char>, q: nat, e: nat)
    requires q <= e < |s| && s[e] == '\0' && forall x :: q <= x < e ==> s[x] != '\0'
    ensures StringAt(s, q) == s[q..e]
    decreases e - q
  {
    if q < e {
      ReadsStretch(s, q + 1, e);
      assert s[q..e] == [s[q]] + s[q + 1..e];
    }
  }

  /** Every NUL falls outside every word, so each token reads as it was lexed. */
  lemma ReadsAsLexed(line: string, before: seq<char>, after: seq<char>, cmd: Cmd, t: Tok)
    requires '\0' !in line && |line| < |before| == |after| && before[..|line|] == line
    requires Exact(line, Toks(cmd), 0, |line|) && t in Toks(cmd)
    requires forall x: nat :: x < |after| ==> after[x] == if x in Ends(cmd) then '\0' else before[x]
    ensures IsWord(line, t.0, t.1) && StringAt(after, t.0) == line[t.0..t.1]
  {
    var (q, e) := t;
    assert Toks(cmd)[(q, e)] > 0;
    TokHasEnd(cmd, t);
    assert WordAt(line, e - 1);
    forall x | q <= x < e ensures after[x] == line[x] && after[x] != '\0' {
      assert WordAt(line, x) && before[x] == before[..|line|][x];
      if x in Ends(cmd) { EndIsOutside(line, cmd, x); }
    }
    ReadsStretch(after, q, e);
  }

  lemma EndIsOutside(line: string, cmd: Cmd, e: nat)
    requires Exact(line, Toks(cmd), 0, |line|) && e in Ends(cmd)
    ensures !WordAt(line, e) && e <= |line|
  {
    EndsOfToks(cmd, e);
    var q: nat :| (q, e) in Toks(cmd);
    assert Toks(cmd)[(q, e)] > 0;
    assert WordAt(line, e - 1);
  }

  /** The first NUL of the buffer: strlen. */
  method Strlen(buf: array<char>) returns (n: nat)
    requires '\0' in buf[..]
    ensures n < buf.Length && buf[n] == '\0' && '\0' !in buf[..n]
  {
    n := 0;
    while buf[n] != '\0'
      invariant n < buf.Length && '\0' !in buf[..n] && '\0' in buf[n..]
      decreases buf.Length - n
    {
      n := n + 1;
    }
  }

  /**
   parsecmd: it accepts exactly the lines of the grammar (want stands for any
   derivation a caller may have); the tree is the one the derivation stands
   for; its parts stand in the line in the order of the tree; its tokens are the
   words of the line, each once; and in the buffer it leaves behind every token
   reads as the word it was.
   */
  method Parsecmd(buf: array<char>, ghost want: Line) returns (ok: bool, cmd: Cmd, ghost line: string, ghost d: Line)
    requires '\0' in buf[..]
    modifies buf
    ensures |line| < buf.Length && line == old(buf[..])[..|line|] && '\0' !in line && old(buf[|line|]) == '\0'
    ensures ok ==> LineOk(d) && cmd == TreeLine(d) && Lexes(line, SpellLine(d), 0, |line|)
    ensures LineOk(want) && Lexes(line, SpellLine(want), 0, |line|) ==> ok && d == want
    ensures ok ==> Exact(line, Toks(cmd), 0, |line|)
    ensures ok ==> Spans(line, cmd, 0, |line|)
    ensures ok ==> forall t :: t in Toks(cmd) ==> IsWord(line, t.0, t.1) && StringAt(buf[..], t.0) == line[t.0..t.1]
    ensures !ok ==> buf[..] == old(buf[..])
  {
    var es := Strlen(buf);
    line := buf[..es];
    var p := new Parser(buf[..es]);
    ghost var go := LineOk(want) && Lexes(line, SpellLine(want), 0, |line|);
    assert SpellLine(want) + [] == SpellLine(want);
    ok, cmd, d := p.Parseline(go, want, []);
    if !ok { return; }
    ghost var a := p.ps;
    var _ := p.Peek("", go, []);
    p.Pass(SpellLine(d), 0, a, p.ps);
    if p.ps != es { return false, cmd, line, d; }
    LineWords(d);
    LineSpans(line, d, 0, |line|);
    LexesExact(line, SpellLine(d), 0, |line|);
    forall e | e in Ends(cmd) ensures e < buf.Length { EndIsOutside(line, cmd, e); }
    ghost var before := buf[..];
    Nulterminate(buf, cmd);
    forall t | t in Toks(cmd) ensures IsWord(line, t.0, t.1) && StringAt(buf[..], t.0) == line[t.0..t.1] {
      ReadsAsLexed(line, before, buf[..], cmd, t);
    }
  }
}
