/** The TRANSACTION engine delivers: in every state the bytes already on the wire, those still buffered,
    those still owed by the callback and the terminator, and the replies to the unread input add up
    to what the sequential interpreter sends. */
module Delivery {
  import opened Text
  import opened Buffers
  import opened Parsers
  import opened Maildrops
  import opened Replies
  import opened Sessions
  import opened Reference

  // ---------- the invariant of a session in TRANSACTION ----------

  ghost predicate EnvOk(env: Env) {
    IsNewDir(env.dir) && SmallListing(env.listing)
  }

  ghost predicate BuffersOk(c: Client) {
    && c.out.Normal() && c.out.cap == BUFFER_SIZE
    && c.inp.Normal() && c.inp.cap == BUFFER_SIZE
    && AllLegal(c.inp.content)
  }

  // Between replies only the tail of a terminator can be left in the output buffer.
  ghost predicate IdleOk(c: Client) {
    c.finished && !c.multiline ==>
      && c.filler == NoFiller
      && c.out.read + |c.out.content| <= 3
      && c.out.content == TERMINATOR[3 - |c.out.content|..]
  }

  ghost predicate EndingOk(c: Client) {
    c.finished && c.multiline ==>
      c.filler == NoFiller && c.out == Buf(BUFFER_SIZE, 0, TERMINATOR) && c.next == TRANSACTION
  }

  ghost predicate FillingOk(c: Client) {
    && (!c.finished ==> c.next == TRANSACTION)
    && (!c.finished && !c.multiline ==> c.filler == NoFiller && c.out.content != [])
    && (c.filler == ListAllNew ==> c.maildir.loaded && c.listed <= |c.maildir.mails|)
    && (c.filler != ListAllNew ==> c.listed == 0)
  }

  ghost predicate PipeOk(c: Client) {
    && (c.filler == LoadMore <==> c.reader.Registered?)
    && (c.reader.Registered? ==>
          if c.reader.interest == Read then
            c.out.read + |c.out.content| <= MAX_REPLY + 3 && (c.interest == Write ==> c.out.content == [])
          else c.reader.interest == NoOp && c.interest == Write)
  }

  ghost predicate InterestOk(c: Client) {
    && (c.interest == Read ==> c.finished && !c.multiline && (c.inp.content == [] || !Live(c.parser)))
    && (c.interest == NoOp ==> c.reader.Registered? && c.reader.interest == Read)
    && (c.interest == Write && c.finished && !c.multiline ==> c.inp.content != [])
  }

  // Between commands the parser has not failed; a byte out of place ends the line instead.
  ghost predicate ParserOk(p: P) {
    !p.ended && p.err != InvalidChar
  }

  ghost predicate Inv(c: Client, env: Env) {
    && EnvOk(env) && BuffersOk(c) && DropOk(c.maildir) && ParserOk(c.parser)
    && IdleOk(c) && EndingOk(c) && FillingOk(c) && PipeOk(c) && InterestOk(c)
  }

  function BoxOf(d: Drop): Box {
    if d.loaded then Some(d.mails) else None
  }

  // ---------- what is still to come ----------

  /** What the current reply still owes beyond the output buffer. */
  function Owed(c: Client, env: Env): string {
    if c.finished then ""
    else match c.filler
      case NoFiller => if c.multiline then TERMINATOR else ""
      case ListAllNew => ScanLines(c.maildir.mails, c.listed) + TERMINATOR
      case LoadMore => (if c.reader.Registered? then c.reader.pipe + Suffix(env) else "") + TERMINATOR
  }

  /** Everything sent and yet to be sent, and the marks to be committed, if `more` is received after what is in
      the input buffer. */
  function Total(c: Client, env: Env, more: string): Outcome
    requires !c.parser.ended
  {
    var later := Resume(env, BoxOf(c.maildir), c.parser, c.inp.content + more);
    Outcome(c.wire + c.out.content + Owed(c, env) + later.bytes, later.marks)
  }

  /** The same once QUIT was read. */
  function TotalInUpdate(c: Client): Outcome {
    Outcome(c.wire + c.out.content + Farewell(c.maildir), Some(c.maildir.mails))
  }

  // ---------- sending ----------

  lemma SendSomeMoves(c: Client, limit: nat, m: nat)
    requires c.out.Normal()
    ensures var r := SendSome(c, limit, m);
            && r.wire + r.out.content == c.wire + c.out.content
            && r.out.Normal() && r.out.cap == c.out.cap
            && r.out.read + |r.out.content| <= c.out.read + |c.out.content|
            && |r.out.content| == |c.out.content| - Min(m, Min(|c.out.content|, limit))
            && r.out.content == c.out.content[|c.out.content| - |r.out.content|..]
            && r == c.(out := r.out, wire := r.wire)
  {
    var n := Min(m, Min(|c.out.content|, limit));
    assert c.out.content == c.out.content[..n] + c.out.content[n..];
  }

  // A marked message has no line.
  lemma MarkedHasNoLine(mails: seq<Mail>, i: nat)
    requires i < |mails| && mails[i].del
    ensures ScanLines(mails, i) == ScanLines(mails, i + 1)
  {
    EmptyFirst(ScanLines(mails, i + 1));
  }

  lemma EmptyFirst(s: string)
    ensures "" + s == s
  {
  }

  lemma {:induction false} ScanLinesSkip(mails: seq<Mail>, i: nat)
    requires i <= |mails|
    ensures ScanLines(mails, i) == ScanLines(mails, NextKept(mails, i))
    decreases |mails| - i
  {
    if i < |mails| && mails[i].del {
      MarkedHasNoLine(mails, i);
      ScanLinesSkip(mails, i + 1);
    }
  }

  lemma Assoc(a: string, b: string, c: string)
    ensures (a + b) + c == a + (b + c)
  {
  }

  // The LIST callback on a drained buffer, when no message is left.
  lemma ListEnds(c: Client, env: Env)
    requires c.maildir.loaded && c.listed <= |c.maildir.mails|
    requires NextKept(c.maildir.mails, c.listed) == |c.maildir.mails|
    ensures ListMore(c, env) == c.(filler := NoFiller, listed := 0)
    ensures ScanLines(c.maildir.mails, c.listed) == ""
  {
    ScanLinesSkip(c.maildir.mails, c.listed);
  }

  // The next line of a LIST is the first of what is owed.
  lemma NextScanLine(mails: seq<Mail>, listed: nat)
    requires listed <= |mails| && NextKept(mails, listed) < |mails|
    ensures var i := NextKept(mails, listed);
            ScanLines(mails, listed) == ScanLine(i + 1, mails[i].file.size) + ScanLines(mails, i + 1)
  {
    ScanLinesSkip(mails, listed);
  }

  // A line fits in an empty buffer.
  lemma LineIsShort(d: Drop, i: nat)
    requires DropOk(d) && i < |d.mails|
    ensures 0 < |ScanLine(i + 1, d.mails[i].file.size)| <= MAX_REPLY
  {
    NumbersAreShort(i + 1, d.mails[i].file.size);
  }

  // The LIST callback on a drained buffer, when there is one more line: it always fits.
  lemma ListGoesOn(c: Client, env: Env)
    requires DropOk(c.maildir) && c.maildir.loaded && c.listed <= |c.maildir.mails|
    requires NextKept(c.maildir.mails, c.listed) < |c.maildir.mails|
    requires c.out == EmptyBuf(BUFFER_SIZE)
    ensures var i := NextKept(c.maildir.mails, c.listed);
            var line := ScanLine(i + 1, c.maildir.mails[i].file.size);
            var last := i + 1 == |c.maildir.mails|;
            ListMore(c, env) == c.(out := Buf(BUFFER_SIZE, 0, line), interest := Write,
                                   listed := if last then 0 else i + 1,
                                   filler := if last then NoFiller else c.filler)
  {
    var i := NextKept(c.maildir.mails, c.listed);
    LineIsShort(c.maildir, i);
    PutOnEmpty(ScanLine(i + 1, c.maildir.mails[i].file.size));
  }

  lemma PutOnEmpty(line: string)
    ensures EmptyBuf(BUFFER_SIZE).Put(line) == Buf(BUFFER_SIZE, 0, line)
  {
  }

  /** A step that moves reply bytes along without touching the input or the maildrop. */
  ghost predicate Forwards(c: Client, r: Client, env: Env) {
    && r.wire + r.out.content + Owed(r, env) == c.wire + c.out.content + Owed(c, env)
    && r.parser == c.parser && r.inp == c.inp && r.maildir == c.maildir && r.fs == c.fs && r.user == c.user
  }

  // The line moves from what is owed to the buffer.
  lemma LineForwards(wire: string, line: string, rest: string)
    ensures wire + line + (rest + TERMINATOR) == wire + [] + ((line + rest) + TERMINATOR)
  {
    Assoc(line, rest, TERMINATOR);
    Assoc(wire, line, rest + TERMINATOR);
    assert wire + [] == wire;
  }

  // A LIST in progress on a drained buffer.
  ghost predicate InListing(c: Client, env: Env) {
    Inv(c, env) && c.interest == Write && c.filler == ListAllNew && !c.finished && c.out == EmptyBuf(BUFFER_SIZE)
  }

  // The state the callback leaves when it has put `line`, the first line owed.
  function LinePut(c: Client, line: string, i: nat, last: bool): Client {
    c.(out := Buf(BUFFER_SIZE, 0, line), interest := Write,
       listed := if last then 0 else i + 1, filler := if last then NoFiller else c.filler)
  }

  lemma LinePutKeeps(c: Client, env: Env, line: string, i: nat)
    requires InListing(c, env) && i < |c.maildir.mails| && 0 < |line| <= MAX_REPLY
    ensures Inv(LinePut(c, line, i, i + 1 == |c.maildir.mails|), env)
  {
  }

  // `rest` are the lines behind it.
  lemma LinePutOwes(c: Client, env: Env, line: string, i: nat, rest: string)
    requires c.filler == ListAllNew && !c.finished && c.multiline && c.out == EmptyBuf(BUFFER_SIZE)
    requires i < |c.maildir.mails| && rest == ScanLines(c.maildir.mails, i + 1)
    requires ScanLines(c.maildir.mails, c.listed) == line + rest
    ensures Forwards(c, LinePut(c, line, i, i + 1 == |c.maildir.mails|), env)
  {
    LineForwards(c.wire, line, rest);
    EmptyFirst(TERMINATOR);
  }

  lemma ListLineStep(c: Client, env: Env)
    requires InListing(c, env) && NextKept(c.maildir.mails, c.listed) < |c.maildir.mails|
    ensures Inv(ListMore(c, env), env) && Forwards(c, ListMore(c, env), env)
  {
    var mails := c.maildir.mails;
    var i := NextKept(mails, c.listed);
    var line := ScanLine(i + 1, mails[i].file.size);
    ListGoesOn(c, env);
    LineIsShort(c.maildir, i);
    NextScanLine(mails, c.listed);
    LinePutKeeps(c, env, line, i);
    LinePutOwes(c, env, line, i, ScanLines(mails, i + 1));
  }

  lemma ListEndStep(c: Client, env: Env)
    requires InListing(c, env) && NextKept(c.maildir.mails, c.listed) == |c.maildir.mails|
    ensures Inv(ListMore(c, env), env) && Forwards(c, ListMore(c, env), env)
  {
    ListEnds(c, env);
    EmptyFirst(TERMINATOR);
  }

  lemma ListStep(c: Client, env: Env)
    requires InListing(c, env)
    ensures Inv(ListMore(c, env), env) && Forwards(c, ListMore(c, env), env)
  {
    if NextKept(c.maildir.mails, c.listed) == |c.maildir.mails| {
      ListEndStep(c, env);
    } else {
      ListLineStep(c, env);
    }
  }

  /** Only once the buffer is drained does send_data turn to the callback or the terminator. */
  lemma SendDataStep(c: Client, env: Env, m: nat)
    requires Inv(c, env) && c.interest == Write && !c.finished
    ensures var (r, to) := SendData(c, env, m);
            && to == TRANSACTION && Inv(r, env) && Forwards(c, r, env)
            && (SendSome(c, MAX_BYTES_SEND, m).out.content != [] ==> r == SendSome(c, MAX_BYTES_SEND, m))
  {
    SendSomeMoves(c, MAX_BYTES_SEND, m);
    var c1 := SendSome(c, MAX_BYTES_SEND, m);
    if c1.out.content == [] {
      DrainedStep(c, c1, env, m);
    }
  }

  // The rest of send_data, when the output buffer has been drained.
  lemma DrainedStep(c: Client, c1: Client, env: Env, m: nat)
    requires Inv(c, env) && c.interest == Write && !c.finished
    requires c1 == SendSome(c, MAX_BYTES_SEND, m) && c1.out.content == []
    requires c1.wire == c.wire + c.out.content && c1.out == EmptyBuf(BUFFER_SIZE)
    requires c1 == c.(out := c1.out, wire := c1.wire)
    ensures var (r, to) := SendData(c, env, m);
            to == TRANSACTION && Inv(r, env) && Forwards(c, r, env)
  {
    assert c1.wire + [] == c1.wire;
    match c.filler
    case ListAllNew => ListStep(c1, env);
    case LoadMore =>
    case NoFiller =>
      assert [] + TERMINATOR == TERMINATOR;
      assert c1.wire + TERMINATOR + "" == c1.wire + [] + TERMINATOR;
  }

  lemma SendTerminatorStep(c: Client, env: Env, m: nat)
    requires Inv(c, env) && c.interest == Write && c.finished && c.multiline
    ensures var (r, to) := SendTerminator(c, m);
            && to == TRANSACTION && Inv(r, env) && Forwards(c, r, env)
            && r.finished && !r.multiline && Owed(r, env) == ""
  {
    SendSomeMoves(c, MAX_BYTES_SEND, m);
  }

  // A pipe event with bytes.
  lemma PipeYields(c: Client, env: Env, k: nat)
    requires Inv(c, env) && c.reader.Registered? && c.reader.interest == Read && c.reader.pipe != []
    ensures Inv(PipeReady(c, env, k), env) && Forwards(c, PipeReady(c, env, k), env)
  {
    var n := Min(k, Min(c.out.Room(), |c.reader.pipe|));
    var a, b := c.reader.pipe[..n], c.reader.pipe[n..];
    assert c.reader.pipe == a + b;
    Assoc(a, b, Suffix(env));
    Assoc(a, b + Suffix(env), TERMINATOR);
    Assoc(c.wire, c.out.content, a);
    Assoc(c.wire + c.out.content, a, b + Suffix(env) + TERMINATOR);
  }

  // The end of the pipe.
  lemma PipeEnds(c: Client, env: Env, k: nat)
    requires Inv(c, env) && c.reader.Registered? && c.reader.interest == Read && c.reader.pipe == []
    ensures Inv(PipeReady(c, env, k), env) && Forwards(c, PipeReady(c, env, k), env)
  {
    var x := Suffix(env);
    assert [] + x == x;
    Assoc(c.wire, c.out.content, x);
    Assoc(c.wire + c.out.content, x, TERMINATOR);
    assert c.out.content + "" == c.out.content;
  }

  /** A pipe event moves bytes from the pipe to the buffer and hands the turn to the client; the end of the
      pipe, and only it, unregisters the pipe and clears the callback. */
  lemma PipeStep(c: Client, env: Env, k: nat)
    requires Inv(c, env) && c.reader.Registered? && c.reader.interest == Read
    ensures var r := PipeReady(c, env, k);
            && Inv(r, env) && Forwards(c, r, env) && r.interest == Write
            && (c.reader.pipe == [] ==> r.reader == Unregistered && r.filler == NoFiller)
            && (c.reader.pipe != [] ==> r.reader.Registered? && r.reader.interest == NoOp && r.filler == c.filler)
  {
    if c.reader.pipe == [] {
      PipeEnds(c, env, k);
    } else {
      PipeYields(c, env, k);
    }
  }
}
