/** The resumable line parser shared by the POP3 sessions (transParser.c, authParser.c: the same
    tables) and by the monitor (monitorParser.c), and the one-pass grammar it implements. */
module Parsers {
  import opened Text

  // State identifiers of the parsers.
  const S0: nat := 0
  const S1: nat := 1
  const S2: nat := 2
  const S3: nat := 3
  const SERR: nat := 4

  const MAX_ARG_LEN: nat := 40

  /** The two parsers differ only in which bytes a command name keeps, and how many. */
  datatype Dialect = Pop3 | Monitor

  datatype ErrValue = NoError | InvalidArg | InvalidChar

  datatype P = P(state: nat, cmd: string, arg: string, ended: bool, err: ErrValue, quit: bool)

  const INIT_P := P(S0, "", "", false, NoError, false)

  predicate IsWordChar(c: char) {
    IsPrint(c) && c != ' '
  }

  function CmdClass(d: Dialect): char -> bool {
    match d
    case Pop3 => IsAlpha
    case Monitor => IsWordChar
  }

  function MaxCmd(d: Dialect): nat {
    match d
    case Pop3 => 5
    case Monitor => 40
  }

  /** The input alphabet: on any other byte process_char has no next state. */
  predicate Legal(c: char) {
    32 <= c as int <= 127 || c == CR || c == LF
  }

  predicate AllLegal(s: string) {
    forall i :: 0 <= i < |s| ==> Legal(s[i])
  }

  // ---------- one byte ----------

  /** What the transition tables say. */
  function Delta(state: nat, c: char): nat {
    if state == S0 then (if c == ' ' then S1 else if c == CR then S2 else if c == LF then SERR else S0)
    else if state == S1 then (if c == CR then S2 else if c == LF then SERR else S1)
    else if state == S2 then (if c == LF then S3 else SERR)
    else SERR
  }

  function SaveCmd(d: Dialect, p: P, c: char): P {
    if !CmdClass(d)(c) || |p.cmd| >= MaxCmd(d) then p else p.(cmd := p.cmd + [c])
  }

  function SaveArg(p: P, c: char): P {
    if !IsPrint(c) then p
    else if |p.arg| >= MAX_ARG_LEN then p.(err := InvalidArg)
    else p.(arg := p.arg + [c])
  }

  function Depart(d: Dialect, p: P, c: char): P {
    if p.state == S0 then SaveCmd(d, p, c) else if p.state == S1 then SaveArg(p, c) else p
  }

  function Arrive(p: P, to: nat): P {
    if to == S3 then p.(state := to, ended := true)
    else if to == SERR then p.(state := to, ended := true, err := InvalidChar)
    else p.(state := to)
  }

  function ProcessChar(d: Dialect, p: P, c: char): P {
    Arrive(Depart(d, p, c), Delta(p.state, c))
  }

  // ---------- a chunk of bytes ----------

  predicate Live(p: P) {
    !p.ended && p.err == NoError
  }

  /** The parse loop: the state it stops in and the bytes it leaves in the buffer. */
  function Feed(d: Dialect, p: P, s: string): (r: (P, string))
    ensures |r.1| <= |s|
    ensures Live(r.0) ==> r.1 == []
    ensures Live(p) && s != [] ==> |r.1| < |s|
    decreases |s|
  {
    if !Live(p) || s == [] then (p, s) else Feed(d, ProcessChar(d, p, s[0]), s[1..])
  }

  /** What is left is a suffix of what was offered. */
  lemma {:induction false} FeedLeavesSuffix(d: Dialect, p: P, s: string)
    ensures var r := Feed(d, p, s).1; r == s[|s| - |r|..]
    decreases |s|
  {
    if Live(p) && s != [] {
      FeedLeavesSuffix(d, ProcessChar(d, p, s[0]), s[1..]);
    }
  }

  /** Where a chunk is cut does not matter. */
  lemma {:induction false} FeedSplit(d: Dialect, p: P, a: string, b: string)
    ensures var (q, r) := Feed(d, p, a);
            Feed(d, p, a + b) == if Live(q) then Feed(d, q, b) else (q, r + b)
    decreases |a|
  {
    if a == [] {
      assert a + b == b;
    } else if Live(p) {
      assert (a + b)[1..] == a[1..] + b;
      FeedSplit(d, ProcessChar(d, p, a[0]), a[1..], b);
    }
  }

  // ---------- the one-pass grammar ----------

  /** Index of the first CR or LF, or |s|. */
  function LineEnd(s: string): (i: nat)
    ensures i <= |s|
    ensures forall j :: 0 <= j < i ==> s[j] != CR && s[j] != LF
    ensures i < |s| ==> s[i] == CR || s[i] == LF
  {
    if s == [] || s[0] == CR || s[0] == LF then 0 else 1 + LineEnd(s[1..])
  }

  /** A line ends at its first LF, or one byte after its first CR whatever that byte is. */
  predicate Complete(s: string) {
    var e := LineEnd(s);
    e < |s| && (s[e] == LF || e + 1 < |s|)
  }

  function LineLen(s: string): (n: nat)
    requires Complete(s)
    ensures 0 < n <= |s|
  {
    if s[LineEnd(s)] == LF then LineEnd(s) + 1 else LineEnd(s) + 2
  }

  function Body(s: string): string {
    s[..LineEnd(s)]
  }

  /** What precedes the first blank, and what follows it. */
  function Head(x: string): string {
    x[..IndexOf(x, ' ')]
  }

  function Tail(x: string): string {
    var i := IndexOf(x, ' ');
    if i < |x| then x[i + 1..] else ""
  }

  /** The command name: the kept bytes before the first blank, cut to the maximum length. */
  function CmdOf(d: Dialect, body: string): string {
    Take(Keep(Head(body), CmdClass(d)), MaxCmd(d))
  }

  /** The argument: the printable bytes after the first blank. */
  function ArgOf(body: string): string {
    Keep(Tail(body), IsPrint)
  }

  predicate Fits(body: string) {
    |ArgOf(body)| <= MAX_ARG_LEN
  }

  // The parser after the bytes `x` of an unfinished line.
  function Within(d: Dialect, x: string): P {
    P(if IndexOf(x, ' ') < |x| then S1 else S0, CmdOf(d, x), ArgOf(x), false, NoError, false)
  }

  lemma KeepSnoc(s: string, c: char, p: char -> bool)
    ensures Keep(s + [c], p) == Keep(s, p) + (if p(c) then [c] else [])
  {
    assert (s + [c])[..|s|] == s;
  }

  lemma {:induction false} KeepAll(s: string, p: char -> bool)
    requires forall i :: 0 <= i < |s| ==> p(s[i])
    ensures Keep(s, p) == s
  {
    if s != [] {
      var t, c := s[..|s| - 1], s[|s| - 1];
      KeepAll(t, p);
      assert s == t + [c] && p(c);
      KeepSnoc(t, c, p);
    }
  }

  // How one more byte changes the split at the first blank.
  lemma BlankStays(x: string, c: char)
    requires IndexOf(x, ' ') < |x| || c == ' '
    ensures IndexOf(x + [c], ' ') == IndexOf(x, ' ')
  {
    var i, y := IndexOf(x, ' '), x + [c];
    assert y[i] == ' ';
    forall j | 0 <= j < i ensures y[j] != ' ' {
      assert y[j] == x[j];
    }
  }

  lemma NoBlankYet(x: string, c: char)
    requires IndexOf(x, ' ') == |x| && c != ' '
    ensures IndexOf(x + [c], ' ') == |x| + 1
  {
    var y := x + [c];
    assert forall j :: 0 <= j < |y| ==> y[j] != ' ';
  }

  lemma CutSnoc(x: string, c: char, k: nat)
    requires k <= |x|
    ensures (x + [c])[..k] == x[..k] && (x + [c])[k..] == x[k..] + [c]
  {
  }

  lemma HeadSnoc(x: string, c: char)
    ensures Head(x + [c]) == if IndexOf(x, ' ') < |x| || c == ' ' then Head(x) else Head(x) + [c]
  {
    var i := IndexOf(x, ' ');
    if i == |x| && c != ' ' {
      NoBlankYet(x, c);
    } else {
      BlankStays(x, c);
      CutSnoc(x, c, i);
    }
  }

  lemma TailSnoc(x: string, c: char)
    ensures Tail(x + [c]) == if IndexOf(x, ' ') < |x| then Tail(x) + [c] else ""
  {
    var i := IndexOf(x, ' ');
    if i < |x| {
      BlankStays(x, c);
      CutSnoc(x, c, i + 1);
    } else {
      BlankAtEnd(x, c);
    }
  }

  // Nothing follows a last blank.
  lemma BlankAtEnd(x: string, c: char)
    requires IndexOf(x, ' ') == |x|
    ensures Tail(x + [c]) == ""
  {
    if c == ' ' {
      BlankStays(x, c);
    } else {
      NoBlankYet(x, c);
    }
  }

  lemma CmdSnoc(d: Dialect, x: string, c: char)
    requires c != CR && c != LF
    ensures CmdOf(d, x + [c]) ==
            if IndexOf(x, ' ') == |x| && CmdClass(d)(c) && |CmdOf(d, x)| < MaxCmd(d)
            then CmdOf(d, x) + [c] else CmdOf(d, x)
  {
    HeadSnoc(x, c);
    KeepSnoc(Head(x), c, CmdClass(d));
  }

  lemma ArgSnoc(x: string, c: char)
    ensures ArgOf(x + [c]) == if IndexOf(x, ' ') < |x| && IsPrint(c) then ArgOf(x) + [c] else ArgOf(x)
  {
    TailSnoc(x, c);
    KeepSnoc(Tail(x), c, IsPrint);
  }

  // Which side of the first blank the parser is on.
  lemma SideSnoc(x: string, c: char)
    ensures IndexOf(x + [c], ' ') < |x| + 1 <==> IndexOf(x, ' ') < |x| || c == ' '
  {
    if IndexOf(x, ' ') == |x| && c != ' ' {
      NoBlankYet(x, c);
    } else {
      BlankStays(x, c);
    }
  }

  lemma WithinSnoc(d: Dialect, x: string, c: char)
    requires c != CR && c != LF
    ensures Fits(x + [c]) ==> Fits(x) && ProcessChar(d, Within(d, x), c) == Within(d, x + [c])
    ensures Fits(x) && !Fits(x + [c]) ==>
              ProcessChar(d, Within(d, x), c) == Within(d, x).(err := InvalidArg)
  {
    SideSnoc(x, c);
    CmdSnoc(d, x, c);
    ArgSnoc(x, c);
  }

  lemma {:induction false} FeedWithin(d: Dialect, x: string)
    requires LineEnd(x) == |x|
    ensures Fits(x) ==> Feed(d, INIT_P, x) == (Within(d, x), "")
    ensures !Fits(x) ==> var q := Feed(d, INIT_P, x).0; !q.ended && q.err == InvalidArg
    decreases |x|
  {
    if x == [] {
      assert Within(d, x) == INIT_P;
    } else {
      var y, c := x[..|x| - 1], x[|x| - 1];
      assert x == y + [c];
      assert LineEnd(y) == |y|;
      FeedWithin(d, y);
      FeedSplit(d, INIT_P, y, [c]);
      WithinSnoc(d, y, c);
      var q := Feed(d, INIT_P, y).0;
      assert [c][1..] == [];
      if Fits(y) {
        assert Feed(d, q, [c]) == Feed(d, ProcessChar(d, q, c), []);
      }
    }
  }

  // The bytes that end a line.
  lemma EndOfLine(d: Dialect, p: P, t: string)
    requires Live(p) && (p.state == S0 || p.state == S1) && t != [] && (t[0] == CR || t[0] == LF)
    ensures t[0] == LF ==> Feed(d, p, t) == (p.(state := SERR, ended := true, err := InvalidChar), t[1..])
    ensures t[0] == CR && |t| == 1 ==> Feed(d, p, t) == (p.(state := S2), [])
    ensures t[0] == CR && |t| > 1 && t[1] == LF ==> Feed(d, p, t) == (p.(state := S3, ended := true), t[2..])
    ensures t[0] == CR && |t| > 1 && t[1] != LF ==>
              Feed(d, p, t) == (p.(state := SERR, ended := true, err := InvalidChar), t[2..])
  {
    assert !IsPrint(t[0]) && !CmdClass(d)(t[0]);
    assert Depart(d, p, t[0]) == p;
    if t[0] == CR {
      var q := p.(state := S2);
      assert Feed(d, p, t) == Feed(d, q, t[1..]);
      if |t| > 1 {
        assert t[1..][1..] == t[2..];
        assert Feed(d, q, t[1..]) == Feed(d, ProcessChar(d, q, t[1]), t[2..]);
      }
    }
  }

  lemma FeedFromBody(d: Dialect, s: string, body: string, t: string)
    requires s == body + t && LineEnd(body) == |body|
    ensures Fits(body) ==> Feed(d, INIT_P, s) == Feed(d, Within(d, body), t)
    ensures !Fits(body) ==> !Feed(d, INIT_P, s).0.ended && Feed(d, INIT_P, s).0.err == InvalidArg
  {
    FeedWithin(d, body);
    FeedSplit(d, INIT_P, body, t);
  }

  /** The table-driven parser is the grammar: it ends exactly on a complete line whose argument fits,
      with that line's command and argument, leaving what follows the line; on an unfinished line
      it waits; on the 41st printable argument byte it stops for good without ending. */
  lemma FeedIsGrammar(d: Dialect, s: string)
    ensures var (q, r) := Feed(d, INIT_P, s);
            var body := Body(s);
            && (q.ended <==> Fits(body) && Complete(s))
            && (q.ended ==> q.cmd == CmdOf(d, body) && q.arg == ArgOf(body) && !q.quit && r == s[LineLen(s)..])
            && (Fits(body) && !Complete(s) ==> Live(q) && r == [])
            && (!Fits(body) ==> q.err == InvalidArg && forall more :: Feed(d, q, more) == (q, more))
  {
    var e := LineEnd(s);
    var t := s[e..];
    assert LineEnd(s[..e]) == e;
    assert s == s[..e] + t;
    FeedFromBody(d, s, s[..e], t);
    if Fits(Body(s)) && t != [] {
      assert t[0] == s[e];
      EndOfLine(d, Within(d, Body(s)), t);
      assert t[1..] == s[e + 1..];
      if |t| > 1 {
        assert t[2..] == s[e + 2..];
      }
    }
  }

  // ---------- many lines, with re-initialisation after each ----------

  datatype Command = Command(cmd: string, arg: string)

  datatype Parsed = Parsed(commands: seq<Command>, p: P, left: string) {
    function After(before: seq<Command>): Parsed {
      this.(commands := before + commands)
    }
  }

  /** Parses, hands over each complete command and starts afresh. */
  function ParseAll(d: Dialect, p: P, s: string): (r: Parsed)
    requires !p.ended
    ensures !r.p.ended && (Live(r.p) ==> r.left == [])
    decreases |s|
  {
    var (q, rest) := Feed(d, p, s);
    if q.ended then ParseAll(d, INIT_P, rest).After([Command(q.cmd, q.arg)]) else Parsed([], q, rest)
  }

  /** The same, one received chunk at a time. */
  function ParseChunks(d: Dialect, p: P, left: string, chunks: seq<string>): Parsed
    requires !p.ended
    decreases |chunks|
  {
    if chunks == [] then Parsed([], p, left)
    else
      var first := ParseAll(d, p, left + chunks[0]);
      ParseChunks(d, first.p, first.left, chunks[1..]).After(first.commands)
  }

  function Concat(chunks: seq<string>): string {
    if chunks == [] then "" else chunks[0] + Concat(chunks[1..])
  }

  // What ParseAll does, read off the state in which the first line stops.
  lemma ParseAllFrom(d: Dialect, p: P, s: string, q: P, rest: string)
    requires !p.ended && Feed(d, p, s) == (q, rest)
    ensures q.ended ==> ParseAll(d, p, s) == ParseAll(d, INIT_P, rest).After([Command(q.cmd, q.arg)])
    ensures !q.ended ==> ParseAll(d, p, s) == Parsed([], q, rest)
  {
  }

  // The first line ends within the first part.
  lemma SplitAfterLine(d: Dialect, p: P, a: string, b: string, q: P, rest: string)
    requires !p.ended && Feed(d, p, a) == (q, rest) && q.ended
    requires var first := ParseAll(d, INIT_P, rest);
             ParseAll(d, INIT_P, rest + b) == ParseAll(d, first.p, first.left + b).After(first.commands)
    ensures var first := ParseAll(d, p, a);
            ParseAll(d, p, a + b) == ParseAll(d, first.p, first.left + b).After(first.commands)
  {
    FeedSplit(d, p, a, b);
    ParseAllFrom(d, p, a, q, rest);
    ParseAllFrom(d, p, a + b, q, rest + b);
    var one, first := [Command(q.cmd, q.arg)], ParseAll(d, INIT_P, rest);
    Regroup(one, first.commands, ParseAll(d, first.p, first.left + b));
  }

  lemma Regroup(a: seq<Command>, b: seq<Command>, r: Parsed)
    ensures r.After(b).After(a) == r.After(a + b)
  {
    assert a + (b + r.commands) == (a + b) + r.commands;
  }

  // It does not.
  lemma SplitWithinLine(d: Dialect, p: P, a: string, b: string, q: P, rest: string)
    requires !p.ended && Feed(d, p, a) == (q, rest) && !q.ended
    ensures ParseAll(d, p, a + b) == ParseAll(d, q, rest + b)
  {
    FeedSplit(d, p, a, b);
    if Live(q) {
      assert rest + b == b;
    }
    var (q', rest') := Feed(d, q, rest + b);
    ParseAllFrom(d, p, a + b, q', rest');
    ParseAllFrom(d, q, rest + b, q', rest');
  }

  lemma {:induction false} ParseAllSplit(d: Dialect, p: P, a: string, b: string)
    requires !p.ended
    ensures var first := ParseAll(d, p, a);
            ParseAll(d, p, a + b) == ParseAll(d, first.p, first.left + b).After(first.commands)
    decreases |a|
  {
    var (q, rest) := Feed(d, p, a);
    if q.ended {
      ParseAllSplit(d, INIT_P, rest, b);
      SplitAfterLine(d, p, a, b, q, rest);
    } else {
      ParseAllFrom(d, p, a, q, rest);
      SplitWithinLine(d, p, a, b, q, rest);
      var all := ParseAll(d, q, rest + b);
      assert [] + all.commands == all.commands;
    }
  }

  /** However the stream is cut into chunks, the same commands come out. */
  lemma {:induction false} ChunksDoNotMatter(d: Dialect, p: P, left: string, chunks: seq<string>)
    requires !p.ended && (Live(p) ==> left == [])
    ensures ParseChunks(d, p, left, chunks) == ParseAll(d, p, left + Concat(chunks))
    decreases |chunks|
  {
    if chunks == [] {
      assert left + Concat(chunks) == left;
    } else {
      assert left + Concat(chunks) == (left + chunks[0]) + Concat(chunks[1..]);
      ParseAllSplit(d, p, left + chunks[0], Concat(chunks[1..]));
      var first := ParseAll(d, p, left + chunks[0]);
      ChunksDoNotMatter(d, first.p, first.left, chunks[1..]);
    }
  }
}
