/** The table-driven automaton (parser.c), its tables (transParser.c, monitorParser.c), and the parser
    object that runs it over a buffer. The object does what `Parsers.Feed` says. */
module Automata {
  import opened Text
  import opened Buffers
  import opened Parsers

  // One flag for each of ' '..DEL, then CR, then LF.
  const ACTIVATORS_LEN: nat := 98

  datatype Transition = Transition(from: nat, to: nat, activators: seq<bool>)

  type Rows = seq<seq<Transition>>

  function ActivatorIndex(c: char): (i: nat)
    requires Legal(c)
    ensures i < ACTIVATORS_LEN
  {
    if c == CR then ACTIVATORS_LEN - 2 else if c == LF then ACTIVATORS_LEN - 1 else c as int - ' ' as int
  }

  // ---------- building the tables ----------

  function NoActivators(): (r: seq<bool>)
    ensures |r| == ACTIVATORS_LEN && forall i :: 0 <= i < ACTIVATORS_LEN ==> !r[i]
  {
    seq(ACTIVATORS_LEN, i => false)
  }

  function AllBut(exceptions: string): (r: seq<bool>)
    requires AllLegal(exceptions)
    ensures |r| == ACTIVATORS_LEN
  {
    if exceptions == [] then seq(ACTIVATORS_LEN, i => true)
    else AllBut(exceptions[..|exceptions| - 1])[ActivatorIndex(exceptions[|exceptions| - 1]) := false]
  }

  function Only(c: char): (r: seq<bool>)
    requires Legal(c)
  {
    NoActivators()[ActivatorIndex(c) := true]
  }

  /** add_activator */
  method AddActivator(activators: array<bool>, c: char)
    requires activators.Length == ACTIVATORS_LEN && Legal(c)
    modifies activators
    ensures activators[..] == old(activators[..])[ActivatorIndex(c) := true]
  {
    activators[ActivatorIndex(c)] := true;
  }

  /** add_activator_except */
  method AddActivatorExcept(activators: array<bool>, exceptions: string)
    requires activators.Length == ACTIVATORS_LEN && AllLegal(exceptions)
    modifies activators
    ensures activators[..] == AllBut(exceptions)
  {
    for i := 0 to ACTIVATORS_LEN
      invariant forall k :: 0 <= k < i ==> activators[k]
    {
      activators[i] := true;
    }
    assert activators[..] == AllBut("");
    for j := 0 to |exceptions|
      invariant activators[..] == AllBut(exceptions[..j])
    {
      assert exceptions[..j + 1][..j] == exceptions[..j];
      activators[ActivatorIndex(exceptions[j])] := false;
    }
    assert exceptions[..|exceptions|] == exceptions;
  }

  /** The rows of S0, S1 and S2; the final states have none. */
  function Tables(): Rows {
    [ [Transition(S0, S0, AllBut(" \r\n")), Transition(S0, S1, Only(' ')), Transition(S0, S2, Only(CR))],
      [Transition(S1, S1, AllBut("\r\n")), Transition(S1, S2, Only(CR))],
      [Transition(S2, S3, Only(LF))],
      [],
      [] ]
  }

  // A fresh activator array with one flag set.
  method Single(c: char) returns (row: seq<bool>)
    requires Legal(c)
    ensures row == Only(c)
  {
    var a := new bool[ACTIVATORS_LEN](i => false);
    assert a[..] == NoActivators();
    AddActivator(a, c);
    row := a[..];
  }

  method Others(exceptions: string) returns (row: seq<bool>)
    requires AllLegal(exceptions)
    ensures row == AllBut(exceptions)
  {
    var a := new bool[ACTIVATORS_LEN](i => false);
    AddActivatorExcept(a, exceptions);
    row := a[..];
  }

  /** conf_trans_parser and conf_monitor_parser build the same tables. */
  method Configure() returns (rows: Rows)
    ensures rows == Tables()
  {
    var s00 := Others(" \r\n");
    var s01 := Single(' ');
    var s02 := Single(CR);
    var s10 := Others("\r\n");
    var s11 := Single(CR);
    var s20 := Single(LF);
    rows := [ [Transition(S0, S0, s00), Transition(S0, S1, s01), Transition(S0, S2, s02)],
              [Transition(S1, S1, s10), Transition(S1, S2, s11)],
              [Transition(S2, S3, s20)],
              [],
              [] ];
  }

  // ---------- what the tables say ----------

  lemma IndexIsInjective(c: char, d: char)
    requires Legal(c) && Legal(d)
    ensures ActivatorIndex(c) == ActivatorIndex(d) <==> c == d
  {
  }

  lemma {:induction false} AllButAt(exceptions: string, c: char)
    requires AllLegal(exceptions) && Legal(c)
    ensures AllBut(exceptions)[ActivatorIndex(c)] <==> c !in exceptions
  {
    if exceptions != [] {
      var k := |exceptions| - 1;
      AllButAt(exceptions[..k], c);
      IndexIsInjective(exceptions[k], c);
      assert exceptions == exceptions[..k] + [exceptions[k]];
    }
  }

  /** The built tables are the transition function: at most one row is active, it leaves its own state,
      and where none is active the automaton goes to the error state. */
  lemma TablesAreDelta(state: nat, c: char)
    requires state <= SERR && Legal(c)
    ensures var row := Tables()[state];
            && (forall t :: t in row ==> |t.activators| == ACTIVATORS_LEN && t.from == state && t.to < SERR)
            && (forall i :: 0 <= i < |row| && row[i].activators[ActivatorIndex(c)] ==> Delta(state, c) == row[i].to)
            && ((forall i :: 0 <= i < |row| ==> !row[i].activators[ActivatorIndex(c)]) ==> Delta(state, c) == SERR)
  {
    AllButAt(" \r\n", c);
    AllButAt("\r\n", c);
    IndexIsInjective(c, ' ');
    IndexIsInjective(c, CR);
    IndexIsInjective(c, LF);
    var row := Tables()[state];
    if Delta(state, c) != SERR {
      var i := if state == S0 && c == ' ' then 1 else if state == S0 && c == CR then 2
               else if state == S1 && c == CR then 1 else 0;
      assert i < |row| && row[i].activators[ActivatorIndex(c)];
    }
  }

  // ---------- the parser object ----------

  function CmdRoom(d: Dialect): nat {
    MaxCmd(d) + 1
  }

  function ArgRoom(d: Dialect): nat {
    match d
    case Pop3 => 5 * MAX_ARG_LEN + 1
    case Monitor => MAX_ARG_LEN + 1
  }

  class LineParser {
    const d: Dialect
    const rows: Rows
    const cmd: array<char>
    const arg: array<char>
    var state: nat
    var totalCmd: nat
    var totalArg: nat
    var ended: bool
    var quit: bool
    var err: ErrValue

    // A C string of length `n` in a larger array.
    static ghost predicate IsText(a: array<char>, n: nat)
      reads a
    {
      && n < a.Length
      && (forall k :: 0 <= k < n ==> a[k] != NUL)
      && (forall k :: n <= k < a.Length ==> a[k] == NUL)
    }

    ghost predicate Valid()
      reads this, cmd, arg
    {
      && cmd != arg && cmd.Length == CmdRoom(d) && arg.Length == ArgRoom(d)
      && rows == Tables() && state <= SERR
      && totalCmd <= MaxCmd(d) && totalArg <= MAX_ARG_LEN
      && IsText(cmd, totalCmd) && IsText(arg, totalArg)
    }

    ghost function Model(): P
      reads this, cmd, arg
      requires Valid()
    {
      P(state, cmd[..totalCmd], arg[..totalArg], ended, err, quit)
    }

    constructor (d: Dialect, rows: Rows)
      requires rows == Tables()
      ensures Valid() && Model() == INIT_P && this.d == d && fresh(cmd) && fresh(arg)
    {
      this.d := d;
      this.rows := rows;
      cmd := new char[CmdRoom(d)](i => NUL);
      arg := new char[ArgRoom(d)](i => NUL);
      state, totalCmd, totalArg := S0, 0, 0;
      ended, quit, err := false, false, NoError;
    }

    static method Clear(a: array<char>, n: nat)
      requires n <= a.Length
      modifies a
      ensures forall k :: 0 <= k < n ==> a[k] == NUL
      ensures forall k :: n <= k < a.Length ==> a[k] == old(a[k])
    {
      for i := 0 to n
        invariant forall k :: 0 <= k < i ==> a[k] == NUL
        invariant forall k :: n <= k < a.Length ==> a[k] == old(a[k])
      {
        a[i] := NUL;
      }
    }

    /** init_trans_parser: the memsets stop before the last byte, which is never written. */
    method Init()
      requires Valid()
      modifies this, cmd, arg
      ensures Valid() && Model() == INIT_P
    {
      state, totalCmd, totalArg := S0, 0, 0;
      ended, quit, err := false, false, NoError;
      Clear(cmd, MaxCmd(d));
      Clear(arg, MAX_ARG_LEN);
    }

    method SaveCmd(c: char)
      requires Valid()
      modifies this`totalCmd, cmd
      ensures Valid() && Model() == Parsers.SaveCmd(d, old(Model()), c)
    {
      if !CmdClass(d)(c) {
        return;
      }
      if totalCmd >= MaxCmd(d) {
        return;
      }
      cmd[totalCmd] := c;
      totalCmd := totalCmd + 1;
    }

    method SaveArg(c: char)
      requires Valid()
      modifies this`totalArg, this`err, arg
      ensures Valid() && Model() == Parsers.SaveArg(old(Model()), c)
    {
      if !IsPrint(c) {
        return;
      }
      if totalArg >= MAX_ARG_LEN {
        err := InvalidArg;
        return;
      }
      arg[totalArg] := c;
      totalArg := totalArg + 1;
    }

    // The on_departure column of the states.
    method OnDeparture(from: nat, c: char)
      requires Valid() && from == state
      modifies this`totalCmd, this`totalArg, this`err, cmd, arg
      ensures Valid() && Model() == Depart(d, old(Model()), c)
    {
      if from == S0 {
        SaveCmd(c);
      } else if from == S1 {
        SaveArg(c);
      }
    }

    // The on_arrival column.
    method OnArrival(to: nat)
      requires Valid()
      modifies this`ended, this`err
      ensures Valid() && Model().(state := to) == Arrive(old(Model()), to)
    {
      if to == S3 {
        ended := true;
      } else if to == SERR {
        err := InvalidChar;
        ended := true;
      }
    }

    /** process_char, and the caller's assignment of the state it returns. */
    method ProcessChar(c: char)
      requires Valid() && Legal(c)
      modifies this, cmd, arg
      ensures Valid() && Model() == Parsers.ProcessChar(d, old(Model()), c)
    {
      TablesAreDelta(state, c);
      var activator := ActivatorIndex(c);
      var row := rows[state];
      var i := 0;
      while i < |row| && !row[i].activators[activator]
        invariant 0 <= i <= |row|
        invariant forall j :: 0 <= j < i ==> !row[j].activators[activator]
      {
        i := i + 1;
      }
      var to := SERR;
      if i < |row| {
        OnDeparture(row[i].from, c);
        to := row[i].to;
      } else {
        OnDeparture(state, c);
      }
      OnArrival(to);
      state := to;
    }

    // One turn of the loop of Parse.
    method ParseByte(b: Buffer)
      requires Valid() && b.Valid() && b.Model().content != [] && Legal(b.Model().content[0])
      requires b.data != cmd && b.data != arg
      modifies this, cmd, arg, b, b.data
      ensures Valid() && Model() == Parsers.ProcessChar(d, old(Model()), old(b.Model()).content[0])
      ensures b.Valid() && b.Model() == old(b.Model()).Advance(1)
    {
      var c := b.ReadByte();
      ProcessChar(c);
    }

    /** trans_parse: stops at the end of the line, of the buffer, or at an error. */
    method Parse(b: Buffer)
      requires Valid() && b.Valid() && b.Model().Normal() && AllLegal(b.Model().content)
      requires b.data != cmd && b.data != arg
      modifies this, cmd, arg, b, b.data
      ensures Valid() && b.Valid()
      ensures (Model(), b.Model()) == Drained(d, old(Model()), old(b.Model()))
    {
      ghost var start, p := b.Model(), Model();
      ghost var n := 0;
      var more := b.CanRead();
      while err == NoError && more && !ended
        invariant 0 <= n <= |start.content| && Valid() && b.Valid() && b.Model() == start.Advance(n)
        invariant more <==> n < |start.content|
        invariant Feed(d, p, start.content) == Feed(d, Model(), start.content[n..])
        decreases |start.content| - n
      {
        AdvanceOnce(start, n);
        FeedOnce(d, Model(), start.content, n);
        ParseByte(b);
        n := n + 1;
        more := b.CanRead();
      }
      StopsHere(d, Model(), start.content, n);
    }

    // A C string read up to its terminator.
    static method ReadText(a: array<char>, ghost n: nat) returns (s: string)
      requires IsText(a, n)
      ensures s == a[..n]
    {
      s := "";
      var i := 0;
      while a[i] != NUL
        invariant 0 <= i <= n && s == a[..i]
        decreases n - i
      {
        s := s + [a[i]];
        i := i + 1;
      }
    }

    method CmdText() returns (s: string)
      requires Valid()
      ensures s == Model().cmd
    {
      s := ReadText(cmd, totalCmd);
    }

    method ArgText() returns (s: string)
      requires Valid()
      ensures s == Model().arg
    {
      s := ReadText(arg, totalArg);
    }

    /** get_next_arg, whose count of arguments already read is always 0 here: one byte at a time up to a
        blank or the terminator. */
    method NextArg() returns (buf: string)
      requires Valid()
      ensures buf == FirstToken(Model().arg)
    {
      buf := "";
      var j := 0;
      while arg[j] != ' ' && arg[j] != NUL
        invariant 0 <= j <= totalArg && buf == arg[..j] && ' ' !in buf
        decreases totalArg - j
      {
        buf := buf + [arg[j]];
        j := j + 1;
      }
      TokenEnds(arg[..totalArg], j);
    }

    /** convertToUpper on the command's bytes. */
    method UpperCmd()
      requires Valid()
      modifies cmd
      ensures Valid() && Model() == old(Model()).(cmd := Upper(old(Model()).cmd))
    {
      var i := 0;
      while cmd[i] != NUL
        invariant 0 <= i <= totalCmd && Valid()
        invariant forall k :: 0 <= k < i ==> cmd[k] == UpperChar(old(cmd[k]))
        invariant forall k :: i <= k < cmd.Length ==> cmd[k] == old(cmd[k])
        decreases totalCmd - i
      {
        cmd[i] := UpperChar(cmd[i]);
        i := i + 1;
      }
      assert cmd[..totalCmd] == Upper(old(cmd[..totalCmd]));
    }
  }

  lemma TokenEnds(s: string, j: nat)
    requires j <= |s| && ' ' !in s[..j] && (j < |s| ==> s[j] == ' ')
    ensures FirstToken(s) == s[..j]
  {
    forall k | 0 <= k < j ensures s[k] != ' ' {
      assert s[k] == s[..j][k];
    }
  }

  lemma AdvanceOnce(b: Buf, n: nat)
    requires b.Normal() && n < |b.content|
    ensures b.Advance(n).content != [] && b.Advance(n).content[0] == b.content[n]
    ensures b.Advance(n).Advance(1) == b.Advance(n + 1)
  {
    assert b.content[n..][1..] == b.content[n + 1..];
  }

  lemma FeedOnce(d: Dialect, p: P, s: string, n: nat)
    requires n < |s| && Live(p)
    ensures Feed(d, p, s[n..]) == Feed(d, ProcessChar(d, p, s[n]), s[n + 1..])
  {
    assert s[n..][1..] == s[n + 1..];
  }

  /** What parsing makes of the parser and of the buffer it reads. */
  ghost function Drained(d: Dialect, p: P, b: Buf): (P, Buf) {
    var (q, rest) := Feed(d, p, b.content);
    (q, b.Advance(|b.content| - |rest|))
  }

  // Where the loop of Parse stops, so does Feed.
  lemma StopsHere(d: Dialect, p: P, s: string, n: nat)
    requires n <= |s| && (!Live(p) || n == |s|)
    ensures Feed(d, p, s[n..]) == (p, s[n..])
  {
  }
}
