/**
 The peek builtin (c-shell/src/peek.c): printing a file forwards, backwards
 from memory, and backwards in fixed-size chunks, with optional line numbers.
 Contents hold no NUL character, which printf("%s") would stop at.
 */
module Peek {
  import opened Wrappers

  /** No newline in s[a..b). */
  predicate NoNewline(s: string, a: int, b: int)
    requires 0 <= a && b <= |s|
  {
    forall x :: a <= x < b ==> s[x] != '\n'
  }

  /** What getline returns, call after call: lines with their newline, the last one perhaps without. */
  function Lines(s: string): (ls: seq<string>)
    ensures forall k :: 0 <= k < |ls| ==> ls[k] != ""
    ensures s != "" ==> ls != []
    decreases |s|
  {
    if s == "" then [] else
      var k := FirstLine(s);
      [s[..k]] + Lines(s[k..])
  }

  /** The length of the first line, its newline included. */
  function FirstLine(s: string): (k: nat)
    requires s != ""
    ensures 0 < k <= |s| && NoNewline(s, 0, k - 1) && (k < |s| ==> s[k - 1] == '\n')
  {
    if s[0] == '\n' || |s| == 1 then 1 else
      var k := FirstLine(s[1..]);
      assert forall x :: 1 <= x < k ==> s[x] == s[1..][x - 1];
      1 + k
  }

  function Joined(ls: seq<string>): string { if ls == [] then "" else ls[0] + Joined(ls[1..]) }

  /** A newline ends the line, and only ends it. */
  predicate OneLine(line: string) { line != "" && NoNewline(line, 0, |line| - 1) }

  /** Each but perhaps the last ends with its newline. */
  predicate AllLines(ls: seq<string>) {
    && (forall k :: 0 <= k < |ls| ==> OneLine(ls[k]))
    && (forall k :: 0 <= k < |ls| - 1 ==> ls[k] != "" && ls[k][|ls[k]| - 1] == '\n')
  }

  /** The lines together are the contents. */
  lemma {:induction false} LinesAre(s: string)
    ensures Joined(Lines(s)) == s && AllLines(Lines(s))
    decreases |s|
  {
    hide OneLine, Joined, AllLines, Lines;
    LinesUnfold(s);
    if s != "" {
      var k := FirstLine(s);
      LinesAre(s[k..]);
      FirstIsLine(s, k);
      ConsLine(s[..k], Lines(s[k..]));
      assert s == s[..k] + s[k..];
    }
  }

  lemma LinesUnfold(s: string)
    ensures s == "" ==> Lines(s) == [] && Joined(Lines(s)) == "" && AllLines(Lines(s))
    ensures s != "" ==>
      var k := FirstLine(s);
      Lines(s) == [s[..k]] + Lines(s[k..]) && (Lines(s[k..]) != [] ==> s[k..] != "")
  {
    hide OneLine;
  }

  lemma ConsLine(l: string, ls: seq<string>)
    requires OneLine(l) && AllLines(ls) && l != "" && (ls != [] ==> l[|l| - 1] == '\n')
    ensures AllLines([l] + ls) && Joined([l] + ls) == l + Joined(ls)
  {
    hide OneLine;
    assert ([l] + ls)[1..] == ls;
  }

  lemma FirstIsLine(s: string, k: nat)
    requires s != "" && k == FirstLine(s)
    ensures k <= |s| && OneLine(s[..k]) && (s[k..] != "" ==> s[..k][k - 1] == '\n')
  {
  }

  /** is_non_empty */
  predicate NonEmpty(line: string) { line != "" && line[0] != '\n' && line[0] != '\r' }

  function Count(ls: seq<string>): nat {
    if ls == [] then 0 else Count(ls[..|ls| - 1]) + if NonEmpty(ls[|ls| - 1]) then 1 else 0
  }

  lemma {:induction false} CountCons(l: string, ls: seq<string>)
    ensures Count([l] + ls) == (if NonEmpty(l) then 1 else 0) + Count(ls)
    decreases |ls|
  {
    var n := |ls|;
    if n == 0 {
      assert ([l] + ls)[..0] == [];
    } else {
      assert ([l] + ls)[..n] == [l] + ls[..n - 1];
      CountCons(l, ls[..n - 1]);
    }
  }

  /** printf("%d") of a line number. */
  function Decimal(n: int): string
    decreases if n < 0 then 1 - n else n
  {
    if n < 0 then "-" + Decimal(-n)
    else (if n < 10 then "" else Decimal(n / 10)) + [(n % 10) as char + '0']
  }

  predicate Digit(c: char) { '0' <= c <= '9' }

  /** The number a string of digits stands for. */
  function Evaluate(s: string): nat
    requires forall k :: 0 <= k < |s| ==> Digit(s[k])
  {
    if s == "" then 0 else
      assert Digit(s[|s| - 1]);
      10 * Evaluate(s[..|s| - 1]) + (s[|s| - 1] as int - '0' as int)
  }

  /** The digits of a number stand for it, and there is no leading zero; a negative one has a minus sign before them. */
  lemma {:induction false} DecimalIs(n: int)
    ensures n >= 0 ==>
      && Decimal(n) != "" && (forall k :: 0 <= k < |Decimal(n)| ==> Digit(Decimal(n)[k]))
      && Evaluate(Decimal(n)) == n && (if n == 0 then Decimal(n) == "0" else Decimal(n)[0] != '0')
    ensures n < 0 ==> Decimal(n) == "-" + Decimal(-n)
    decreases if n < 0 then 1 - n else n
  {
    hide Evaluate, Digit;
    if n >= 10 {
      DecimalIs(n / 10);
      DigitOf(n % 10);
      OneMoreDigit(Decimal(n / 10), (n % 10) as char + '0', n / 10, n % 10);
    } else if n >= 0 {
      NoDigits();
      DigitOf(n);
      OneMoreDigit("", n as char + '0', 0, n);
      assert "" + [n as char + '0'] == Decimal(n);
    }
  }

  lemma DigitOf(d: nat)
    requires d < 10
    ensures var c := d as char + '0'; Digit(c) && c as int - '0' as int == d && (d > 0 ==> c != '0')
  {
  }

  lemma OneMoreDigit(front: string, c: char, m: nat, d: nat)
    requires (forall k :: 0 <= k < |front| ==> Digit(front[k])) && Evaluate(front) == m
    requires Digit(c) && c as int - '0' as int == d
    ensures forall k :: 0 <= k < |front + [c]| ==> Digit((front + [c])[k])
    ensures Evaluate(front + [c]) == 10 * m + d
  {
    assert (front + [c])[..|front|] == front;
  }

  lemma NoDigits()
    ensures Evaluate("") == 0
  {
  }

  /** A printed line: its number, if it gets one, and its text. */
  datatype Shown = Shown(num: Option<int>, text: string)

  function Show(p: Shown): string { (if p.num.Some? then Decimal(p.num.value) + " " else "") + p.text }

  function Text(ps: seq<Shown>): string {
    if ps == [] then "" else Text(ps[..|ps| - 1]) + Show(ps[|ps| - 1])
  }

  lemma TextAppend(ps: seq<Shown>, p: Shown)
    ensures Text(ps + [p]) == Text(ps) + Show(p)
  {
    assert (ps + [p])[..|ps|] == ps;
  }

  function Ended(line: string): string {
    if line != "" && line[|line| - 1] == '\n' then line else line + "\n"
  }

  /** How a line is printed when n is the next number. */
  function Printed(line: string, numbered: bool, n: int): Shown {
    Shown(if numbered && NonEmpty(line) then Some(n) else None, Ended(line))
  }

  /** print_forward: the lines in order, non-empty ones numbered from n on. */
  function Forward(ls: seq<string>, numbered: bool, n: int): seq<Shown> {
    if ls == [] then []
    else Forward(ls[..|ls| - 1], numbered, n) + [Printed(ls[|ls| - 1], numbered, n + Count(ls[..|ls| - 1]))]
  }

  lemma {:induction false} JoinedLast(ls: seq<string>)
    requires ls != []
    ensures Joined(ls) == Joined(ls[..|ls| - 1]) + ls[|ls| - 1]
  {
    var n := |ls| - 1;
    if n == 0 {
      assert ls[1..] == [] && ls[..0] == [];
    } else {
      JoinedLast(ls[1..]);
      assert ls[1..][..n - 1] == ls[..n][1..];
    }
  }

  /** Without numbers, lines that end with a newline are printed as they are. */
  lemma {:induction false} PrintsAsIs(ls: seq<string>, n: int)
    requires forall k :: 0 <= k < |ls| ==> ls[k] != "" && ls[k][|ls[k]| - 1] == '\n'
    ensures Text(Forward(ls, false, n)) == Joined(ls)
    decreases |ls|
  {
    if ls != [] {
      var front := ls[..|ls| - 1];
      PrintsAsIs(front, n);
      JoinedLast(ls);
      TextAppend(Forward(front, false, n), Printed(ls[|ls| - 1], false, n + Count(front)));
    }
  }

  /** print_forward without numbers prints the contents, and a newline if they do not end with one. */
  lemma PrintsContents(s: string, n: int)
    ensures Text(Forward(Lines(s), false, n)) == if s == "" || s[|s| - 1] == '\n' then s else s + "\n"
  {
    if s == "" {
      NothingPrinted(n);
    } else {
      hide Lines, Forward, Text, Joined;
      LinesAre(s);
      SomeLines(s);
      PrintsLast(Lines(s), n);
    }
  }

  lemma SomeLines(s: string)
    requires s != ""
    ensures Lines(s) != []
  {
  }

  lemma NothingPrinted(n: int)
    ensures Text(Forward(Lines(""), false, n)) == ""
  {
  }

  lemma PrintsLast(ls: seq<string>, n: int)
    requires ls != [] && AllLines(ls)
    ensures Joined(ls) != "" && Text(Forward(ls, false, n)) == Ended(Joined(ls))
  {
    hide Forward, Text, Joined, Count;
    var front, last := ls[..|ls| - 1], ls[|ls| - 1];
    PrintsAsIs(front, n);
    JoinedLast(ls);
    ForwardLast(ls, false, n);
    TextAppend(Forward(front, false, n), Printed(last, false, n + Count(front)));
  }

  lemma ForwardLast(ls: seq<string>, numbered: bool, n: int)
    requires ls != []
    ensures var front := ls[..|ls| - 1];
      Forward(ls, numbered, n) == Forward(front, numbered, n) + [Printed(ls[|ls| - 1], numbered, n + Count(front))]
  {
    hide Printed, Count;
  }

  /** Line k is printed with the number of non-empty lines before it added to n, if it is not empty itself. */
  lemma {:induction false} ForwardAt(ls: seq<string>, numbered: bool, n: int, k: nat)
    requires k < |ls|
    ensures |Forward(ls, numbered, n)| == |ls|
    ensures Forward(ls, numbered, n)[k] == Printed(ls[k], numbered, n + Count(ls[..k]))
    decreases |ls|
  {
    hide Forward, Printed, Count;
    var m := |ls| - 1;
    ForwardLast(ls, numbered, n);
    if m == 0 {
      assert ls[..0] == [];
      NoForward(numbered, n);
    } else {
      ForwardAt(ls[..m], numbered, n, if k < m then k else 0);
      if k < m { assert ls[..m][..k] == ls[..k]; }
    }
  }

  lemma NoForward(numbered: bool, n: int)
    ensures Forward([], numbered, n) == []
  {
  }

  /** The same lines with the same numbers, last line first. */
  function Backward(ls: seq<string>, numbered: bool, n: int): seq<Shown> {
    if ls == [] then []
    else [Printed(ls[|ls| - 1], numbered, n + Count(ls[..|ls| - 1]))] + Backward(ls[..|ls| - 1], numbered, n)
  }

  function Reverse(ps: seq<Shown>): seq<Shown> {
    if ps == [] then [] else [ps[|ps| - 1]] + Reverse(ps[..|ps| - 1])
  }

  /** Backwards is the mirror image of forwards: no line changes its number. */
  lemma {:induction false} BackwardIsMirror(ls: seq<string>, numbered: bool, n: int)
    ensures Backward(ls, numbered, n) == Reverse(Forward(ls, numbered, n))
    decreases |ls|
  {
    if ls != [] {
      BackwardIsMirror(ls[..|ls| - 1], numbered, n);
      var f := Forward(ls, numbered, n);
      assert f[..|f| - 1] == Forward(ls[..|ls| - 1], numbered, n);
    }
  }

  /** A line put in front is printed last, with the first number. */
  lemma {:induction false} BackwardCons(l: string, ls: seq<string>, numbered: bool, n: int)
    ensures Backward([l] + ls, numbered, n)
         == Backward(ls, numbered, n + (if NonEmpty(l) then 1 else 0)) + [Printed(l, numbered, n)]
    decreases |ls|
  {
    var m := |ls|;
    if m == 0 {
      assert [l] + ls == [l] && [l][..0] == [];
    } else {
      assert ([l] + ls)[..m] == [l] + ls[..m - 1];
      BackwardCons(l, ls[..m - 1], numbered, n);
      CountCons(l, ls[..m - 1]);
    }
  }

  lemma FirstLineIs(s: string, k: nat)
    requires 0 < k <= |s| && NoNewline(s, 0, k - 1) && (k < |s| ==> s[k - 1] == '\n')
    ensures FirstLine(s) == k
  {
    var f := FirstLine(s);
    assert s[f - 1] == '\n' || f == |s|;
  }

  /** A line that starts at p and ends before e. */
  lemma LineAt(content: string, p: nat, e: nat)
    requires p < e <= |content| && NoNewline(content, p, e - 1) && (e < |content| ==> content[e - 1] == '\n')
    ensures Lines(content[p..]) == [content[p..e]] + Lines(content[e..])
  {
    var s := content[p..];
    assert NoNewline(s, 0, e - p - 1);
    FirstLineIs(s, e - p);
    assert s[..e - p] == content[p..e] && s[e - p..] == content[e..];
  }

  /** What has been printed when the lines ls have, the number of the next line counting down from start. */
  function Countdown(ls: seq<string>, numbered: bool, start: int): string {
    Text(Backward(ls, numbered, start - Count(ls) + 1))
  }

  function Left(ls: seq<string>, numbered: bool, start: int): int {
    if numbered then start - Count(ls) else start
  }

  /** One more line, in front of those printed. */
  lemma OneMore(l: string, ls: seq<string>, numbered: bool, start: int)
    ensures Countdown([l] + ls, numbered, start) ==
      Countdown(ls, numbered, start) + Show(Printed(l, numbered, Left(ls, numbered, start)))
    ensures Left([l] + ls, numbered, start)
         == Left(ls, numbered, start) - (if numbered && NonEmpty(l) then 1 else 0)
  {
    hide Text, Show, Backward, Count, Ended;
    CountCons(l, ls);
    var n := start - Count([l] + ls) + 1;
    assert Printed(l, numbered, n) == Printed(l, numbered, Left(ls, numbered, start));
    BackwardCons(l, ls, numbered, n);
    TextAppend(Backward(ls, numbered, start - Count(ls) + 1), Printed(l, numbered, n));
  }

  /** The three printf calls for a line read into line_buf. */
  method EmitLine(line: string, numbered: bool, num: int) returns (text: string, next: int)
    requires line != ""
    ensures text == Show(Printed(line, numbered, num))
    ensures next == num - (if numbered && NonEmpty(line) then 1 else 0)
  {
    text, next := "", num;
    if numbered && line[0] != '\n' && line[0] != '\r' {
      text := Decimal(next) + " ";
      next := next - 1;
    }
    text := text + line;
    if line[|line| - 1] != '\n' { text := text + "\n"; }
  }

  /** Bytes from x to size have been scanned backwards; the lines from end on have been printed. */
  ghost predicate Scanned(content: string, size: nat, x: nat, end: nat, begun: bool, out: string, num: int,
                          numbered: bool, start: int)
  {
    && x <= size <= |content|
    && if !begun then end == size && out == "" && num == start && NoNewline(content, x, size)
       else
         && x < end <= size && content[end - 1] == '\n' && NoNewline(content, x, end - 1)
         && out == Countdown(Lines(content[end..]), numbered, start)
           && num == Left(Lines(content[end..]), numbered, start)
  }

  /** The final newline, if there is one, has been set aside. */
  predicate Stripped(content: string, size: nat) {
    && size <= |content| <= size + 1
    && (if size < |content| then content[size] == '\n' else size > 0 ==> content[size - 1] != '\n')
  }

  /** The line [p, end), as it stands in the file. */
  function Whole(content: string, p: nat, end: nat, begun: bool): string
    requires p <= end <= |content|
  {
    if begun then content[p..end] else content[p..]
  }

  lemma NextLine(content: string, size: nat, p: nat, end: nat, begun: bool, out: string, num: int, numbered: bool,
                 start: int)
    requires Stripped(content, size) && Scanned(content, size, p, end, begun, out, num, numbered, start)
    requires begun || content[p..] != ""
    ensures p <= end <= |content|
    ensures var l := Whole(content, p, end, begun);
      && Countdown(Lines(content[p..]), numbered, start) == out + Show(Printed(l, numbered, num))
      && Left(Lines(content[p..]), numbered, start) == num - (if numbered && NonEmpty(l) then 1 else 0)
  {
    var l := Whole(content, p, end, begun);
    if begun {
      LineAt(content, p, end);
      OneMore(l, Lines(content[end..]), numbered, start);
    } else {
      var e := |content|;
      LineAt(content, p, e);
      assert content[p..e] == content[p..] && content[e..] == "";
      OneMore(l, [], numbered, start);
      assert Count([]) == 0;
    }
  }

  /** A newline at p, the byte before those scanned: the line after it is printed. */
  method AtNewline(content: string, size: nat, p: nat, end: nat, numbered: bool, num: int,
                   ghost begun: bool, ghost out: string, ghost start: int)
    returns (text: string, num1: int)
    requires Stripped(content, size) && p < size && content[p] == '\n'
    requires Scanned(content, size, p + 1, end, begun, out, num, numbered, start)
    ensures Scanned(content, size, p, p + 1, true, out + text, num1, numbered, start)
  {
    hide Countdown, Left, Lines, Show, Printed, NonEmpty;
    NextLine(content, size, p + 1, end, begun, out, num, numbered, start);
    var len := end - (p + 1);
    if len > 0 {
      var line := content[p + 1..end];
      ShortOfNewline(content, size, p + 1, end, begun, numbered, num);
      text, num1 := EmitLine(line, numbered, num);
    } else {
      JustNewline(content, size, p + 1, numbered, num);
      text, num1 := "\n", num;
    }
  }

  /** The last line may be nothing but the newline that was set aside. */
  lemma JustNewline(content: string, size: nat, p: nat, numbered: bool, num: int)
    requires Stripped(content, size) && p == size > 0 && content[p - 1] == '\n'
    ensures Whole(content, p, size, false) == "\n" && !NonEmpty("\n") && Show(Printed("\n", numbered, num)) == "\n"
  {
  }

  /** The last line prints the same without the newline that was set aside. */
  lemma ShortOfNewline(content: string, size: nat, p: nat, end: nat, begun: bool, numbered: bool, num: int)
    requires Stripped(content, size) && p < end <= size && (!begun ==> end == size && NoNewline(content, p, size))
    ensures var l := Whole(content, p, end, begun);
      && Printed(content[p..end], numbered, num) == Printed(l, numbered, num)
      && NonEmpty(content[p..end]) == NonEmpty(l)
  {
    if !begun {
      if size < |content| { assert content[p..] == content[p..end] + "\n"; }
        else { assert content[p..] == content[p..end]; }
    }
  }

  /**
   print_reverse_chunked, for any chunk size: the file backwards, except that a
   file holding just a newline prints nothing.
   */
  method PrintReverseChunked(content: string, chunk: nat, numbered: bool, start: int) returns (out: string, num: int)
    requires chunk > 0
    ensures content != "\n" ==> out == Countdown(Lines(content), numbered, start)
    ensures content == "\n" ==> out == ""
    ensures num == Left(Lines(content), numbered, start)
  {
    hide Countdown, Left, Lines, Show, Printed, NonEmpty, Scanned, Whole;
    out, num := "", start;
    Edges(content, numbered, start);
    var size := |content|;
    if size <= 0 { return; }
    if content[size - 1] == '\n' { size := size - 1; }
    if size <= 0 { return; }
    var pos: nat, end: nat := size, size;
    ghost var begun := false;
    StartScan(content, size, numbered, start);
    while pos > 0
      invariant pos <= size && Scanned(content, size, pos, end, begun, out, num, numbered, start)
      decreases pos
    {
      var read := if pos < chunk then pos else chunk;
      var text;
      text, num, end, begun := ScanChunk(content, size, pos - read, pos, end, numbered, num, begun, out, start);
      pos, out := pos - read, out + text;
    }
    EndScan(content, size, end, begun, out, num, numbered, start);
    if end > 0 {
      var text;
      text, num := EmitLine(content[..end], numbered, num);
      out := out + text;
    }
  }

  /** The inner loop: one chunk, from its last byte to its first. */
  method ScanChunk(content: string, size: nat, pos: nat, top: nat, end0: nat, numbered: bool, num0: int,
                   ghost begun0: bool, ghost out: string, ghost start: int)
    returns (text: string, num: int, end: nat, ghost begun: bool)
    requires Stripped(content, size) && pos <= top <= size
    requires Scanned(content, size, top, end0, begun0, out, num0, numbered, start)
    ensures Scanned(content, size, pos, end, begun, out + text, num, numbered, start)
  {
    hide Countdown, Left, Lines;
    var buf := content[pos..top];
    text, num, end, begun := "", num0, end0, begun0;
    assert out + "" == out;
    var i := top - pos;
    while i > 0
      invariant 0 <= i <= top - pos && Scanned(content, size, pos + i, end, begun, out + text, num, numbered, start)
    {
      i := i - 1;
      if buf[i] == '\n' {
        var more;
        more, num := AtNewline(content, size, pos + i, end, numbered, num, begun, out + text, start);
        assert (out + text) + more == out + (text + more);
        text, end, begun := text + more, pos + i + 1, true;
      }
    }
  }

  lemma Edges(content: string, numbered: bool, start: int)
    ensures content == "" ==>
      Countdown(Lines(content), numbered, start) == "" && Left(Lines(content), numbered, start) == start
    ensures content == "\n" ==> Left(Lines(content), numbered, start) == start
  {
    if content == "\n" {
      LineAt(content, 0, 1);
      assert content[0..] == content && content[0..1] == "\n" && Lines(content) == ["\n"];
      assert ["\n"][..0] == [];
    }
  }

  lemma StartScan(content: string, size: nat, numbered: bool, start: int)
    requires size <= |content|
    ensures Scanned(content, size, size, size, false, "", start, numbered, start)
  {
  }

  lemma EndScan(content: string, size: nat, end: nat, begun: bool, out: string, num: int, numbered: bool, start: int)
    requires Stripped(content, size) && size > 0 && Scanned(content, size, 0, end, begun, out, num, numbered, start)
    ensures 0 < end <= |content|
    ensures Countdown(Lines(content), numbered, start) == out + Show(Printed(content[..end], numbered, num))
    ensures Left(Lines(content), numbered, start) == num - (if numbered && NonEmpty(content[..end]) then 1 else 0)
  {
    hide Countdown, Left, Lines, Show, Printed, NonEmpty;
    assert content[0..] == content;
    NextLine(content, size, 0, end, begun, out, num, numbered, start);
    ShortOfNewline(content, size, 0, end, begun, numbered, num);
    assert content[..end] == content[0..end];
  }

  /** getline until the end of the file. */
  method ReadLines(content: string) returns (ls: seq<string>)
    ensures ls == Lines(content)
  {
    ls := [];
    var rest := content;
    while rest != ""
      invariant Lines(content) == ls + Lines(rest)
      decreases |rest|
    {
      var k := FirstLine(rest);
      assert ls + ([rest[..k]] + Lines(rest[k..])) == (ls + [rest[..k]]) + Lines(rest[k..]);
      ls, rest := ls + [rest[..k]], rest[k..];
    }
  }

  method CountNonEmpty(content: string) returns (n: nat)
    ensures n == Count(Lines(content))
  {
    var ls := ReadLines(content);
    n := 0;
    var i := 0;
    while i < |ls|
      invariant 0 <= i <= |ls| && n == Count(ls[..i])
    {
      assert ls[..i + 1][..i] == ls[..i];
      if NonEmpty(ls[i]) { n := n + 1; }
      i := i + 1;
    }
    assert ls[..i] == ls;
  }

  /** print_reverse_buffered: all lines in memory, then the last one first. */
  method PrintReverseBuffered(content: string, numbered: bool, offset: int) returns (out: string, total: nat)
    ensures total == Count(Lines(content)) && out == Countdown(Lines(content), numbered, offset + total)
  {
    var ls := ReadLines(content);
    total := CountNonEmpty(content);
    hide Countdown, Left, Lines, Show, Printed, NonEmpty, Count;
    var num := offset + total;
    out := "";
    var i := |ls|;
    NoLines(numbered, offset + total);
    assert ls[i..] == [];
    while i > 0
      invariant 0 <= i <= |ls| && out == Countdown(ls[i..], numbered, offset + total)
      invariant num == Left(ls[i..], numbered, offset + total)
    {
      i := i - 1;
      OneMore(ls[i], ls[i + 1..], numbered, offset + total);
      assert ls[i..] == [ls[i]] + ls[i + 1..];
      LineNotEmpty(content, ls, i);
      var text;
      text, num := EmitLine(ls[i], numbered, num);
      out := out + text;
    }
    assert ls[0..] == ls;
  }

  lemma NoLines(numbered: bool, start: int)
    ensures Countdown([], numbered, start) == "" && Left([], numbered, start) == start
  {
  }

  lemma LineNotEmpty(content: string, ls: seq<string>, i: nat)
    requires ls == Lines(content) && i < |ls|
    ensures ls[i] != ""
  {
  }

  /** print_forward; num counts on over all the files. */
  method PrintForward(content: string, numbered: bool, num0: int) returns (out: string, num: int)
    ensures out == Text(Forward(Lines(content), numbered, num0))
    ensures num == if numbered then num0 + Count(Lines(content)) else num0
  {
    var ls := ReadLines(content);
    hide Forward, Show, Text, Printed, NonEmpty, Count, Lines;
    out, num := "", num0;
    var i := 0;
    NoneForward(numbered, num0);
    assert ls[..0] == [];
    while i < |ls|
      invariant 0 <= i <= |ls| && out == Text(Forward(ls[..i], numbered, num0))
      invariant num == if numbered then num0 + Count(ls[..i]) else num0
    {
      LineNotEmpty(content, ls, i);
      ForwardNext(ls, i, numbered, num0);
      var text;
      text, num := EmitNext(ls[i], numbered, num);
      out := out + text;
      i := i + 1;
    }
    assert ls[..i] == ls;
  }

  /** print_forward's printf calls for a line. */
  method EmitNext(line: string, numbered: bool, num: int) returns (text: string, next: int)
    requires line != ""
    ensures text == Show(Printed(line, numbered, num))
    ensures next == num + (if numbered && NonEmpty(line) then 1 else 0)
  {
    text, next := "", num;
    if numbered && NonEmpty(line) {
      text := Decimal(next) + " ";
      next := next + 1;
    }
    text := text + line;
    if line[|line| - 1] != '\n' { text := text + "\n"; }
  }

  lemma NoneForward(numbered: bool, n: int)
    ensures Text(Forward([], numbered, n)) == "" && Count([]) == 0
  {
  }

  lemma ForwardNext(ls: seq<string>, i: nat, numbered: bool, n: int)
    requires i < |ls|
    ensures Text(Forward(ls[..i + 1], numbered, n))
         == Text(Forward(ls[..i], numbered, n)) + Show(Printed(ls[i], numbered, if numbered then n + Count(ls[..i])
           else n))
    ensures Count(ls[..i + 1]) == Count(ls[..i]) + if NonEmpty(ls[i]) then 1 else 0
  {
    hide Forward, Text, Show, NonEmpty;
    assert ls[..i + 1][..i] == ls[..i];
    ForwardLast(ls[..i + 1], numbered, n);
    TextAppend(Forward(ls[..i], numbered, n), Printed(ls[i], numbered, n + Count(ls[..i])));
  }

  /** An operand of peek: standard input, a file that opens, or one that does not. */
  datatype Source = Stdin(content: string) | File(content: string) | Missing

  /** The lines of an operand, none if it does not open. */
  function SourceLines(f: Source): seq<string> { if f.Missing? then [] else Lines(f.content) }

  /** How many numbers the sources before use up. */
  function Used(fs: seq<Source>): nat {
    if fs == [] then 0 else Used(fs[..|fs| - 1]) + Count(SourceLines(fs[|fs| - 1]))
  }

  /** peek -n over several sources. */
  function AllForward(fs: seq<Source>): string {
    if fs == [] then ""
    else AllForward(fs[..|fs| - 1]) + Text(Forward(SourceLines(fs[|fs| - 1]), true, Used(fs[..|fs| - 1]) + 1))
  }

  predicate LoneNewline(f: Source) { f.File? && f.content == "\n" }

  /** peek -rn over several sources: each one the mirror image of its part of peek -n. */
  function AllMirrored(fs: seq<Source>): string {
    if fs == [] then ""
    else
      var f := fs[|fs| - 1];
      AllMirrored(fs[..|fs| - 1])
      + if LoneNewline(f) then "" else Text(Reverse(Forward(SourceLines(f), true, Used(fs[..|fs| - 1]) + 1)))
  }

  /** The -rn loop of run_peek. */
  method RunReverseNumbered(fs: seq<Source>, chunk: nat) returns (out: string)
    requires chunk > 0
    ensures out == AllMirrored(fs)
  {
    hide Text, Forward, Reverse, Count, SourceLines, LoneNewline;
    out := "";
    var offset, i := 0, 0;
    while i < |fs|
      invariant 0 <= i <= |fs| && out == AllMirrored(fs[..i]) && offset == Used(fs[..i])
    {
      assert fs[..i + 1][..i] == fs[..i];
      var text, n := ReverseOne(fs[i], chunk, offset);
      out, offset, i := out + text, offset + n, i + 1;
    }
    assert fs[..i] == fs;
  }

  method ReverseOne(f: Source, chunk: nat, offset: nat) returns (text: string, n: nat)
    requires chunk > 0
    ensures n == Count(SourceLines(f))
    ensures text == if LoneNewline(f) then "" else Text(Reverse(Forward(SourceLines(f), true, offset + 1)))
  {
    hide Text, Forward, Backward, Reverse, Count, Lines;
    BackwardIsMirror(SourceLines(f), true, offset + 1);
    match f
    case Stdin(content) => text, n := PrintReverseBuffered(content, true, offset);
    case File(content) =>
      n := CountNonEmpty(content);
      var left;
      text, left := PrintReverseChunked(content, chunk, true, offset + n);
    case Missing =>
      NoMirror(offset + 1);
      text, n := "", 0;
  }

  lemma NoMirror(n: int)
    ensures Text(Reverse(Forward([], true, n))) == "" && Count([]) == 0
  {
  }

  /** The other loop of run_peek, with -n. */
  method RunForwardNumbered(fs: seq<Source>) returns (out: string)
    ensures out == AllForward(fs)
  {
    hide Text, Forward, Count, Lines;
    out := "";
    var num, i := 1, 0;
    while i < |fs|
      invariant 0 <= i <= |fs| && out == AllForward(fs[..i]) && num == Used(fs[..i]) + 1
    {
      assert fs[..i + 1][..i] == fs[..i];
      NoneForward(true, num);
      if !fs[i].Missing? {
        var text;
        text, num := PrintForward(fs[i].content, true, num);
        out := out + text;
      }
      i := i + 1;
    }
    assert fs[..i] == fs;
  }

  /** The one file on which the two disagree: from memory it prints as a newline, in chunks as nothing. */
  lemma LoneNewlineDiffers(numbered: bool, start: int)
    ensures Countdown(Lines("\n"), numbered, start) == "\n"
  {
    var content := "\n";
    LineAt(content, 0, 1);
    assert content[0..] == content && content[0..1] == "\n" && content[1..] == "";
    assert Lines(content) == ["\n"];
    NoLines(numbered, start);
    OneMore("\n", [], numbered, start);
    assert ["\n"] + [] == ["\n"];
  }
}
