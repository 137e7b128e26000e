/** The monitor client (client/cmd.c) against the server's parser: how commands are printed, what of them
    arrives, and the circular buffer that prints the replies. */
module Monitors {
  import opened Text
  import opened Parsers
  import opened Lines

  // ---------- commands ----------

  datatype MonitorCmd =
    | Quit | Login | GetUsers | GetUser | GetCurrConn | GetTotalConn | GetSentBytes
    | AddUser | PopulateUser | DeleteUser | Commands

  const NAMES: seq<string> := [
    "QUIT", "LOGIN", "GET_USERS", "GET_USER", "GET_CURR_CONN", "GET_TOTAL_CONN", "GET_SENT_BYTES",
    "ADD_USER", "POPULATE_USER", "DELETE_USER", "COMMANDS" ]

  function IndexOfCmd(cmd: MonitorCmd): (i: nat)
    ensures i < |NAMES|
  {
    match cmd
    case Quit => 0
    case Login => 1
    case GetUsers => 2
    case GetUser => 3
    case GetCurrConn => 4
    case GetTotalConn => 5
    case GetSentBytes => 6
    case AddUser => 7
    case PopulateUser => 8
    case DeleteUser => 9
    case Commands => 10
  }

  function NameOf(cmd: MonitorCmd): string {
    NAMES[IndexOfCmd(cmd)]
  }

  /** get_cmd_index: the position in the table, or its length for an unknown command. */
  method GetCmdIndex(cmd: string) returns (i: nat)
    ensures i <= |NAMES|
    ensures i < |NAMES| ==> NAMES[i] == cmd
    ensures i == |NAMES| ==> cmd !in NAMES
  {
    i := 0;
    while i < |NAMES| && NAMES[i] != cmd
      invariant i <= |NAMES| && forall j :: 0 <= j < i ==> NAMES[j] != cmd
    {
      i := i + 1;
    }
  }

  // ---------- batches ----------

  /** A command whose name is one word, and printable arguments that fit. */
  datatype Line = Line(name: string, args: Option<string>)

  predicate Sendable(l: Line) {
    IsWord(Monitor, l.name) && Printable(ArgText(l.args)) && |ArgText(l.args)| <= MAX_ARG_LEN
  }

  function PrintAll(batch: seq<Line>): string {
    if batch == [] then "" else Print(batch[0].name, batch[0].args) + PrintAll(batch[1..])
  }

  function Received(batch: seq<Line>): seq<Command> {
    if batch == [] then []
    else [Command(batch[0].name, ArgText(batch[0].args))] + Received(batch[1..])
  }

  lemma {:induction false} BatchArrives(batch: seq<Line>)
    requires forall i :: 0 <= i < |batch| ==> Sendable(batch[i])
    ensures ParseAll(Monitor, INIT_P, PrintAll(batch)) == Parsed(Received(batch), INIT_P, "")
    decreases |batch|
  {
    if batch != [] {
      var l := batch[0];
      var rest := PrintAll(batch[1..]);
      LineArrivesIff(Monitor, l.name, l.args, rest);
      var (q, left) := Feed(Monitor, INIT_P, PrintAll(batch));
      ParseAllFrom(Monitor, INIT_P, PrintAll(batch), q, left);
      BatchArrives(batch[1..]);
    }
  }

  /** Printing any batch and parsing it, in any chunks, with re-initialisation between the lines, gives the
      batch back with nothing left over; a missing and an empty argument look the same. */
  lemma BatchRoundTrip(batch: seq<Line>, chunks: seq<string>)
    requires forall i :: 0 <= i < |batch| ==> Sendable(batch[i])
    requires Concat(chunks) == PrintAll(batch)
    ensures ParseChunks(Monitor, INIT_P, "", chunks) == Parsed(Received(batch), INIT_P, "")
  {
    ChunksDoNotMatter(Monitor, INIT_P, "", chunks);
    assert "" + Concat(chunks) == Concat(chunks);
    BatchArrives(batch);
  }

  // ---------- what cmd_exec makes of the user's words ----------

  datatype Request = Request(cmd: MonitorCmd, a: string, b: string)

  // monitor_cmds_args
  function Arity(cmd: MonitorCmd): nat {
    match cmd
    case Login => 2
    case AddUser => 2
    case GetUser => 1
    case PopulateUser => 1
    case DeleteUser => 1
    case _ => 0
  }

  /** What the user asked to send. */
  function Wanted(r: Request): Option<string> {
    if Arity(r.cmd) == 0 then None
    else if Arity(r.cmd) == 1 then Some(r.a)
    else Some(r.a + " " + r.b)
  }

  /** The snprintf bounds: 80 characters for LOGIN, 39 for the others. */
  function Limit(cmd: MonitorCmd): nat {
    if cmd == Login then 2 * MAX_ARG_LEN else MAX_ARG_LEN - 1
  }

  function Given(r: Request): Option<string> {
    match Wanted(r)
    case None => None
    case Some(a) => Some(Take(a, Limit(r.cmd)))
  }

  lemma NamesAreWords(cmd: MonitorCmd)
    ensures IsWord(Monitor, NameOf(cmd))
  {
    match cmd
    case Quit => assert IsWord(Monitor, "QUIT");
    case Login => assert IsWord(Monitor, "LOGIN");
    case GetUsers => assert IsWord(Monitor, "GET_USERS");
    case GetUser => assert IsWord(Monitor, "GET_USER");
    case GetCurrConn => assert IsWord(Monitor, "GET_CURR_CONN");
    case GetTotalConn => assert IsWord(Monitor, "GET_TOTAL_CONN");
    case GetSentBytes => assert IsWord(Monitor, "GET_SENT_BYTES");
    case AddUser => assert IsWord(Monitor, "ADD_USER");
    case PopulateUser => assert IsWord(Monitor, "POPULATE_USER");
    case DeleteUser => assert IsWord(Monitor, "DELETE_USER");
    case Commands => assert IsWord(Monitor, "COMMANDS");
  }

  /** LOGIN arrives exactly when user, blank and password make at most 40 characters, and otherwise
      blocks the server's parser; every other command arrives, but means what was typed only if its
      arguments make at most 39 characters. */
  lemma RequestArrivesIff(r: Request, more: string)
    requires Printable(r.a) && Printable(r.b)
    ensures var want := ArgText(Wanted(r));
            var q := Feed(Monitor, INIT_P, Print(NameOf(r.cmd), Given(r)) + more).0;
            && (q.ended <==> r.cmd != Login || |want| <= 40)
            && (q.ended ==> q.cmd == NameOf(r.cmd) &&
                            (q.arg == want <==> |want| <= (if r.cmd == Login then 80 else 39)))
  {
    var want, given := ArgText(Wanted(r)), ArgText(Given(r));
    assert Printable(want);
    assert forall i :: 0 <= i < |given| ==> given[i] == want[i];
    NamesAreWords(r.cmd);
    LineArrivesIff(Monitor, NameOf(r.cmd), Given(r), more);
  }

  /** The eleven names, letter by letter. */
  lemma NamesAreSpelled()
    ensures NameOf(Quit) == "QUIT" && NameOf(Login) == "LOGIN" && NameOf(GetUsers) == "GET_USERS"
    ensures NameOf(GetUser) == "GET_USER" && NameOf(GetCurrConn) == "GET_CURR_CONN"
    ensures NameOf(GetTotalConn) == "GET_TOTAL_CONN" && NameOf(GetSentBytes) == "GET_SENT_BYTES"
    ensures NameOf(AddUser) == "ADD_USER" && NameOf(PopulateUser) == "POPULATE_USER"
    ensures NameOf(DeleteUser) == "DELETE_USER" && NameOf(Commands) == "COMMANDS"
  {
  }

  /** The bytes of every command, for words that are not cut. */
  lemma RequestBytes(cmd: MonitorCmd, a: string, b: string)
    ensures var bytes := Print(NameOf(cmd), Given(Request(cmd, a, b)));
            && (cmd == Login && |a| + 1 + |b| <= 80 ==> bytes == NameOf(cmd) + " " + a + " " + b + "\r\n")
            && (cmd == AddUser && |a| + 1 + |b| <= 39 ==> bytes == NameOf(cmd) + " " + a + " " + b + "\r\n")
            && (cmd in {GetUser, PopulateUser, DeleteUser} && |a| <= 39 ==> bytes == NameOf(cmd) + " " + a + "\r\n")
            && (cmd in {Quit, GetUsers, GetCurrConn, GetTotalConn, GetSentBytes, Commands} ==>
                  bytes == NameOf(cmd) + "\r\n")
  {
    if cmd == Login || cmd == AddUser {
      var name := NameOf(cmd);
      assert name + " " + (a + " " + b) + "\r\n" == name + " " + a + " " + b + "\r\n";
    }
  }

  // ---------- the reply buffer ----------

  const BUFFER_SIZE: nat := 32768

  const END_OF_REPLY: string := "\r\n\r\n"

  /** The last four bytes of the stream, over a window that starts as zeros. */
  function Window(stream: string): (w: string)
    ensures |w| == 4
  {
    var padded := [NUL, NUL, NUL, NUL] + stream;
    padded[|stream|..]
  }

  predicate EndsReply(stream: string) {
    |stream| >= 4 && stream[|stream| - 4..] == END_OF_REPLY
  }

  /** The window shows the terminator exactly when the stream ends in it. */
  lemma WindowShowsEnd(stream: string)
    ensures Window(stream) == END_OF_REPLY <==> EndsReply(stream)
  {
    var n := |stream|;
    if n >= 4 {
      assert Window(stream) == stream[n - 4..];
    } else {
      assert Window(stream)[0] == NUL;
      assert END_OF_REPLY[0] == CR;
    }
  }

  lemma WindowSlides(stream: string, c: char)
    ensures Window(stream + [c]) == Window(stream)[1..] + [c]
  {
  }

  class ReplyBuffer {
    const b: array<char>
    const last: array<char>
    var r: nat
    var w: nat
    ghost var stream: string

    ghost predicate Valid()
      reads this, b, last
    {
      && b.Length == BUFFER_SIZE && last.Length == 4 && b != last
      && r < BUFFER_SIZE && w < BUFFER_SIZE
      && last[..] == Window(stream)
    }

    /** How many bytes wait to be printed. */
    ghost function Pending(): (n: nat)
      reads this
      requires r < BUFFER_SIZE
    {
      if w >= r then w - r else w + BUFFER_SIZE - r
    }

    // The slot of the k-th waiting byte.
    ghost function SlotOf(k: nat): nat
      reads this
    {
      if r + k < BUFFER_SIZE then r + k else r + k - BUFFER_SIZE
    }

    ghost function Contents(): (s: string)
      reads this, b, last
      requires Valid()
      ensures |s| == Pending()
    {
      seq(Pending(), k requires Valid() && 0 <= k < Pending() reads this, b, last => b[SlotOf(k)])
    }

    constructor ()
      ensures Valid() && Contents() == "" && stream == "" && fresh(b) && fresh(last)
    {
      b := new char[BUFFER_SIZE](i => NUL);
      last := new char[4](i => NUL);
      r, w := 0, 0;
      stream := "";
    }

    /** buffer_write; with one slot to spare, full is never taken for empty. */
    method Write(c: char)
      requires Valid() && Pending() < BUFFER_SIZE - 1
      modifies this`w, this`stream, b, last
      ensures Valid() && stream == old(stream) + [c] && Contents() == old(Contents()) + [c]
    {
      b[w] := c;
      w := (w + 1) % BUFFER_SIZE;
      WindowSlides(stream, c);
      stream := stream + [c];
      Slide(c);
      assert forall k :: 0 <= k < Pending() - 1 ==> Contents()[k] == old(Contents())[k];
    }

    // The shift of `last`.
    method Slide(c: char)
      requires last.Length == 4
      modifies last
      ensures last[..] == old(last[..])[1..] + [c]
    {
      for i := 0 to 3
        invariant forall k :: 0 <= k < i ==> last[k] == old(last[k + 1])
        invariant forall k :: i <= k < 4 ==> last[k] == old(last[k])
      {
        last[i] := last[i + 1];
      }
      last[3] := c;
    }

    /** buffer_read */
    method Read() returns (c: char)
      requires Valid() && r != w
      modifies this`r
      ensures Valid() && stream == old(stream)
      ensures old(Contents()) == [c] + Contents()
    {
      c := b[r];
      r := (r + 1) % BUFFER_SIZE;
    }

    /** has_terminator */
    method HasTerminator() returns (found: bool)
      requires Valid()
      ensures found <==> EndsReply(stream)
    {
      found := true;
      for i := 0 to 4
        invariant found <==> forall k :: 0 <= k < i ==> last[k] == END_OF_REPLY[k]
      {
        if last[i] != END_OF_REPLY[i] {
          found := false;
        }
      }
      WindowShowsEnd(stream);
      assert found ==> last[..] == END_OF_REPLY;
    }

    // Copies one received chunk into the empty buffer.
    method Fill(chunk: string)
      requires Valid() && r == w && |chunk| <= BUFFER_SIZE - 1
      modifies this`w, this`stream, b, last
      ensures Valid() && Contents() == chunk && stream == old(stream) + chunk
    {
      for i := 0 to |chunk|
        invariant Valid() && Contents() == chunk[..i] && stream == old(stream) + chunk[..i]
      {
        assert chunk[..i + 1] == chunk[..i] + [chunk[i]];
        Write(chunk[i]);
      }
      assert chunk[..|chunk|] == chunk;
    }

    // Prints everything that waits.
    method Drain(printed: string) returns (all: string)
      requires Valid()
      modifies this`r
      ensures Valid() && r == w && stream == old(stream) && all == printed + old(Contents())
    {
      all := printed;
      while w != r
        invariant Valid() && stream == old(stream)
        invariant all + Contents() == printed + old(Contents())
        decreases Pending()
      {
        var c := Read();
        all := all + [c];
      }
    }

    /** recv_cmd over the chunks the socket yields: it prints exactly the bytes received, in order, and stops
        after the first chunk at whose end the reply is complete. */
    method RecvCmd(chunks: seq<string>) returns (printed: string, used: nat)
      requires Valid() && r == w && stream == ""
      requires forall i :: 0 <= i < |chunks| ==> |chunks[i]| <= BUFFER_SIZE - 1
      modifies this`r, this`w, this`stream, b, last
      ensures Valid() && used <= |chunks| && printed == Concat(chunks[..used])
      ensures used == |chunks| || EndsReply(printed)
      ensures forall j :: 0 <= j < used ==> !EndsReply(Concat(chunks[..j]))
    {
      printed, used := "", 0;
      var done := HasTerminator();
      while !done && used < |chunks|
        invariant Valid() && r == w && used <= |chunks|
        invariant printed == stream == Concat(chunks[..used])
        invariant done <==> EndsReply(stream)
        invariant forall j :: 0 <= j < used ==> !EndsReply(Concat(chunks[..j]))
        decreases |chunks| - used
      {
        ConcatSnoc(chunks, used);
        Fill(chunks[used]);
        printed := Drain(printed);
        used := used + 1;
        done := HasTerminator();
      }
    }
  }

  lemma {:induction false} ConcatSnoc(chunks: seq<string>, k: nat)
    requires k < |chunks|
    ensures Concat(chunks[..k + 1]) == Concat(chunks[..k]) + chunks[k]
    decreases k
  {
    if k > 0 {
      assert chunks[..k + 1][1..] == chunks[1..][..k];
      assert chunks[..k][1..] == chunks[1..][..k - 1];
      ConcatSnoc(chunks[1..], k - 1);
    } else {
      assert chunks[..1][1..] == [];
    }
  }
}
