/** Every schedule of events gives the client the same bytes, none of them stalls, and none runs for ever. */
module Schedules {
  import opened Text
  import opened Buffers
  import opened Parsers
  import opened Maildrops
  import opened Replies
  import opened Sessions
  import opened Reference
  import opened Delivery
  import opened Answers
  import opened Machine
  import Users

  // ---------- one event ----------

  // The state QUIT leaves, before and after the arrival hook of UPDATE.
  ghost predicate QuitOk(c: Client, env: Env) {
    && EnvOk(env) && BuffersOk(c) && DropOk(c.maildir)
    && c.reader == Unregistered && c.filler == NoFiller && c.out.read + |c.out.content| <= 3
  }

  lemma ForwardsKeepsTotal(c: Client, r: Client, env: Env, more: string)
    requires Inv(c, env) && Inv(r, env) && Forwards(c, r, env)
    ensures Total(r, env, more) == Total(c, env, more)
  {
  }

  lemma AdvanceLeaves(b: Buf, rest: string)
    requires b.Normal() && |rest| <= |b.content| && rest == b.content[|b.content| - |rest|..]
    ensures var r := b.Advance(|b.content| - |rest|); r.content == rest && r.Normal() && r.cap == b.cap
  {
  }

  lemma SuffixIsLegal(s: string, r: string)
    requires AllLegal(s) && |r| <= |s| && r == s[|s| - |r|..]
    ensures AllLegal(r)
  {
  }

  // The parser and the input buffer after parsing.
  lemma ParsingLeaves(p: P, b: Buf, rest: string)
    requires b.Normal() && AllLegal(b.content) && rest == Feed(Pop3, p, b.content).1
    ensures |rest| <= |b.content|
    ensures var r := b.Advance(|b.content| - |rest|); r.content == rest && r.Normal() && r.cap == b.cap
    ensures AllLegal(rest)
  {
    FeedLeavesSuffix(Pop3, p, b.content);
    AdvanceLeaves(b, rest);
    SuffixIsLegal(b.content, rest);
  }

  lemma ConsumeLeaves(c: Client)
    requires c.inp.Normal() && AllLegal(c.inp.content)
    ensures var (q, rest) := Feed(Pop3, c.parser, c.inp.content);
            var c1 := Consume(c);
            && c1 == c.(parser := q, inp := c1.inp)
            && c1.inp.content == rest && c1.inp.Normal() && c1.inp.cap == c.inp.cap && AllLegal(rest)
  {
    ParsingLeaves(c.parser, c.inp, Feed(Pop3, c.parser, c.inp.content).1);
  }

  /** A write event in TRANSACTION delivers: the session stays in TRANSACTION, or has read QUIT, and what it
      will have sent in the end is what it was before. */
  ghost predicate Delivers(c: Client, env: Env, m: nat, more: string)
    requires !c.parser.ended
  {
    var (r, to) := TransProcess(c, env, m);
    && r.user == c.user && r.fs == c.fs
    && ((to == TRANSACTION && Inv(r, env) && Total(r, env, more) == Total(c, env, more)) ||
        (to == UPDATE && QuitOk(r, env) && TotalInUpdate(r) == Total(c, env, more)))
  }

  // An incomplete command: the session waits for more input.
  lemma WaitResult(c: Client, env: Env, m: nat)
    requires Inv(c, env) && c.interest == Write && c.finished && !c.multiline
    requires !Consume(c).parser.ended
    ensures TransProcess(c, env, m) == (Consume(c).(interest := Read), TRANSACTION)
  {
  }

  lemma WaitKeeps(c: Client, env: Env, more: string)
    requires Inv(c, env) && c.interest == Write && c.finished && !c.multiline
    requires !Consume(c).parser.ended
    ensures var r := Consume(c).(interest := Read); Inv(r, env) && Total(r, env, more) == Total(c, env, more)
  {
    ConsumeLeaves(c);
    StillUnfinished(c.parser, c.inp.content);
    ResumeSplit(env, BoxOf(c.maildir), c.parser, c.inp.content, more);
  }

  // A byte out of place ends the line.
  lemma {:induction false} StillUnfinished(p: P, s: string)
    requires ParserOk(p)
    ensures var q := Feed(Pop3, p, s).0; q.ended || ParserOk(q)
    decreases |s|
  {
    if Live(p) && s != [] {
      var q := ProcessChar(Pop3, p, s[0]);
      if !q.ended {
        StillUnfinished(q, s[1..]);
      }
    }
  }

  lemma WaitStep(c: Client, env: Env, m: nat, more: string)
    requires Inv(c, env) && c.interest == Write && c.finished && !c.multiline
    requires !Consume(c).parser.ended
    ensures Delivers(c, env, m, more)
  {
    WaitResult(c, env, m);
    WaitKeeps(c, env, more);
  }

  // The client after its reply was put in the buffer and a first send was tried.
  function Replied(c2: Client, msg: string, m: nat): Client {
    AfterReply(WriteMsg(c2, msg, m))
  }

  lemma RepliedKeeps(c2: Client, env: Env, msg: string, m: nat)
    requires EnvOk(env) && BuffersOk(c2) && DropOk(c2.maildir) && ReplyShape(c2) && c2.next == TRANSACTION
    requires c2.out.read + |c2.out.content| <= 3 && 0 < |msg| <= MAX_REPLY
    ensures var r := Replied(c2, msg, m);
            && Inv(r.(parser := INIT_P), env)
            && r.wire + r.out.content == c2.wire + c2.out.content + msg
            && Owed(r, env) == Owed(c2, env)
            && r.maildir == c2.maildir && r.fs == c2.fs && r.inp == c2.inp && r.next == c2.next && r.user == c2.user
  {
    var w := c2.(out := c2.out.Put(msg));
    SendSomeMoves(w, |w.out.content|, m);
    Assoc(c2.wire, c2.out.content, msg);
  }

  // A complete command other than QUIT.
  lemma ReplyResult(c: Client, env: Env, m: nat)
    requires Inv(c, env) && c.interest == Write && c.finished && !c.multiline
    requires Consume(c).parser.ended
    requires var (c2, msg) := HandleRequest(Consume(c), env); msg != "" && c2.next == TRANSACTION
    ensures var (c2, msg) := HandleRequest(Consume(c), env);
            TransProcess(c, env, m) == (Replied(c2, msg, m).(parser := INIT_P), TRANSACTION)
  {
  }

  // What the interpreter sends from here, in terms of the reply.
  lemma ReplyTotal(c: Client, env: Env, c2: Client, msg: string, more: string)
    requires Inv(c, env) && c.finished && Consume(c).parser.ended && DropOk(c2.maildir)
    requires var q := Consume(c).parser;
             Agrees(Consume(c), env, c2, msg, Respond(env, BoxOf(c.maildir), VerbOf(Upper(q.cmd)), q.arg))
    ensures var later := Resume(env, BoxOf(c2.maildir), INIT_P, Consume(c).inp.content + more);
            Total(c, env, more) ==
            Outcome(c.wire + c.out.content + msg + Owed(c2, env) + later.bytes, later.marks)
  {
    ConsumeLeaves(c);
    ResumeSplit(env, BoxOf(c.maildir), c.parser, c.inp.content, more);
    var later := Resume(env, BoxOf(c2.maildir), INIT_P, Consume(c).inp.content + more);
    assert c.wire + c.out.content + "" == c.wire + c.out.content;
    Assoc(msg, Owed(c2, env), later.bytes);
    Assoc(c.wire + c.out.content, msg, Owed(c2, env) + later.bytes);
    Assoc(c.wire + c.out.content + msg, Owed(c2, env), later.bytes);
  }

  lemma ReplyStep(c: Client, env: Env, m: nat, more: string)
    requires Inv(c, env) && c.interest == Write && c.finished && !c.multiline
    requires Consume(c).parser.ended && VerbOf(Upper(Consume(c).parser.cmd)) != QuitV
    ensures Delivers(c, env, m, more)
  {
    ConsumeLeaves(c);
    RequestAgrees(Consume(c), env);
    var (c2, msg) := HandleRequest(Consume(c), env);
    ReplyResult(c, env, m);
    RepliedKeeps(c2, env, msg, m);
    ReplyTotal(c, env, c2, msg, more);
  }

  // QUIT.
  lemma QuitStep(c: Client, env: Env, m: nat, more: string)
    requires Inv(c, env) && c.interest == Write && c.finished && !c.multiline
    requires Consume(c).parser.ended && VerbOf(Upper(Consume(c).parser.cmd)) == QuitV
    ensures TransProcess(c, env, m).1 == UPDATE && Delivers(c, env, m, more)
  {
    ConsumeLeaves(c);
    var c1 := Consume(c);
    QuitAgrees(c1, env);
    FarewellAgrees(env, c.maildir, c1.parser.arg);
    ResumeSplit(env, BoxOf(c.maildir), c.parser, c.inp.content, more);
    assert c.wire + c.out.content + "" == c.wire + c.out.content;
  }

  // A write event in the middle of a reply.
  lemma ForwardStep(c: Client, env: Env, m: nat, more: string)
    requires Inv(c, env) && c.interest == Write && !(c.finished && !c.multiline)
    ensures Delivers(c, env, m, more)
  {
    var r := TransProcess(c, env, m).0;
    if !c.finished {
      SendDataStep(c, env, m);
    } else {
      SendTerminatorStep(c, env, m);
    }
    ForwardsKeepsTotal(c, r, env, more);
  }

  /** One write event in TRANSACTION, whatever the peer takes: nothing is lost, invented or reordered. */
  lemma TransStep(c: Client, env: Env, m: nat, more: string)
    requires Inv(c, env) && c.interest == Write
    ensures Delivers(c, env, m, more)
  {
    if !(c.finished && !c.multiline) {
      ForwardStep(c, env, m, more);
    } else if !Consume(c).parser.ended {
      WaitStep(c, env, m, more);
    } else if VerbOf(Upper(Consume(c).parser.cmd)) != QuitV {
      ReplyStep(c, env, m, more);
    } else {
      QuitStep(c, env, m, more);
    }
  }

  /** Received bytes only extend the input. */
  lemma ReceiveStep(c: Client, env: Env, bytes: string, more: string)
    requires Inv(c, env) && c.interest == Read && AllLegal(bytes) && 0 < |bytes| <= RecvRoom(c)
    ensures var (r, to) := Receive(c, Got(bytes), TRANSACTION);
            && to == TRANSACTION && Inv(r, env) && r.user == c.user && r.fs == c.fs
            && Total(r, env, more) == Total(c, env, bytes + more)
  {
    assert Take(bytes, RecvRoom(c)) == bytes;
    Assoc(c.inp.content, bytes, more);
  }

  /** In READ the reply is out of the way, and unless an over-long argument has stopped the parser the
      whole input buffer is free: neither odd branch of trans_read can be taken. */
  lemma ReadingIsClear(c: Client, env: Env)
    requires Inv(c, env) && c.interest == Read
    ensures c.finished && (Live(c.parser) ==> RecvRoom(c) == BUFFER_SIZE)
  {
  }

  // ---------- whole connections ----------

  ghost predicate InUpdate(c: Client, env: Env) {
    QuitOk(c, env) && c.interest == Write
  }

  /** A live connection in TRANSACTION or UPDATE. */
  ghost predicate InSession(x: Conn, env: Env) {
    && !x.closed && !x.aborted
    && ((x.current == Some(TRANSACTION) && Inv(x.c, env)) || (x.current == Some(UPDATE) && InUpdate(x.c, env)))
    && (UPDATE in x.entered <==> x.current == Some(UPDATE))
  }

  ghost function ConnTotal(x: Conn, env: Env, more: string): Outcome
    requires InSession(x, env)
  {
    if x.current == Some(TRANSACTION) then Total(x.c, env, more) else TotalInUpdate(x.c)
  }

  function Bytes(e: Event): string {
    if e.Readable? && e.r.Got? then e.r.bytes else ""
  }

  /** What one event may do to a connection that is owed `before`: it goes on, with its files as they are; or
      UPDATE closes it, having committed the marks it was owed and written the whole farewell; or it is closed
      without UPDATE, with nothing more sent and its files as they are. */
  ghost predicate Conserves(x: Conn, y: Conn, env: Env, before: Outcome, more: string) {
    && !y.aborted
    && (!y.closed ==> InSession(y, env) && ConnTotal(y, env, more) == before && y.c.fs == x.c.fs)
    && (Committed(y) ==>
          && IsNewDir(env.dir)
          && before == Outcome(y.c.wire + y.c.out.content, Some(y.c.maildir.mails))
          && y.c.fs == Commit(x.c.fs, env.dir, y.c.maildir.mails))
    && (y.closed && !Committed(y) ==> y.c.wire == x.c.wire && y.c.fs == x.c.fs)
  }

  // The jump after a write handler that delivers.
  lemma FinishConserves(x: Conn, env: Env, slots: Users.Slots, r: Client, to: int, before: Outcome, more: string)
    requires InSession(x, env) && x.current == Some(TRANSACTION) && r.fs == x.c.fs
    requires || (to == TRANSACTION && Inv(r, env) && Total(r, env, more) == before)
             || (to == UPDATE && QuitOk(r, env) && TotalInUpdate(r) == before)
    ensures var y := Finish(x.(c := r), to, slots).0; Conserves(x, y, env, before, more) && !y.closed
  {
  }

  lemma WriteConserves(x: Conn, env: Env, slots: Users.Slots, m: nat, more: string)
    requires InSession(x, env) && x.current == Some(TRANSACTION) && Enabled(x, Writable(m))
    ensures var y := OnWrite(x, env, slots, m).0;
            Conserves(x, y, env, ConnTotal(x, env, more), more) && !y.closed
  {
    TransStep(x.c, env, m, more);
    var (r, to) := TransProcess(x.c, env, m);
    FinishConserves(x, env, slots, r, to, Total(x.c, env, more), more);
  }

  // What one send leaves of the pending bytes and a text put behind them.
  lemma WriteMsgMoves(c: Client, text: string, m: nat)
    ensures var r := WriteMsg(c, text, m);
            && r.wire + r.out.content == c.wire + c.out.content + text
            && (r.out.content == [] <==> m >= |c.out.content| + |text|)
            && r == c.(out := r.out, wire := r.wire)
  {
    var all := c.out.content + text;
    var n := Min(m, |all|);
    assert all == all[..n] + all[n..];
    Assoc(c.wire, all[..n], all[n..]);
    Assoc(c.wire, c.out.content, text);
  }

  // What the only event of UPDATE leaves.
  lemma UpdateResult(x: Conn, env: Env, slots: Users.Slots, m: nat)
    requires InSession(x, env) && x.current == Some(UPDATE)
    ensures var y := OnWrite(x, env, slots, m).0;
            var committed := x.c.(fs := Commit(x.c.fs, env.dir, x.c.maildir.mails));
            && y.c == WriteMsg(committed, Farewell(x.c.maildir), m).(next := DONE)
            && y.closed && Committed(y) && !y.aborted
  {
  }

  /** UPDATE commits the marks, closes, and tries its farewell once: whatever that send does not take, of the
      farewell or of a terminator's tail before it, is lost. */
  lemma UpdateConserves(x: Conn, env: Env, slots: Users.Slots, m: nat, more: string)
    requires InSession(x, env) && x.current == Some(UPDATE)
    ensures var y := OnWrite(x, env, slots, m).0;
            && Conserves(x, y, env, ConnTotal(x, env, more), more) && Committed(y)
            && y.c.fs == Commit(x.c.fs, env.dir, x.c.maildir.mails)
            && y.c.wire + y.c.out.content == x.c.wire + x.c.out.content + Farewell(x.c.maildir)
            && (y.c.out.content == [] <==> m >= |x.c.out.content| + |Farewell(x.c.maildir)|)
  {
    UpdateResult(x, env, slots, m);
    WriteMsgMoves(x.c.(fs := Commit(x.c.fs, env.dir, x.c.maildir.mails)), Farewell(x.c.maildir), m);
  }

  lemma ReadConserves(x: Conn, env: Env, slots: Users.Slots, r: Recv, more: string)
    requires InSession(x, env) && Enabled(x, Readable(r))
    ensures Conserves(x, OnRead(x, slots, r).0, env, ConnTotal(x, env, Bytes(Readable(r)) + more), more)
  {
    if r.Got? {
      ReceiveStep(x.c, env, r.bytes, more);
    } else {
      ReadWithoutBytes(x, env, slots, r, more);
    }
  }

  // recv reports the end of the connection, or fails, or is not called because there is no room.
  lemma ReceiveNothing(c: Client, r: Recv)
    requires c.finished && !r.Got?
    ensures var (n, to) := Receive(c, r, TRANSACTION);
            && n.wire == c.wire && n.fs == c.fs && n.user == c.user
            && (to == DONE || to == ERROR_POP3 ||
                (to == TRANSACTION && c.inp.Compact().Room() <= 0 &&
                 n == c.(inp := c.inp.Compact(), interest := Write)))
  {
  }

  // The input buffer is full: it is compacted, and what is in the output buffer goes first.
  lemma FullInputKeeps(c: Client, env: Env, more: string)
    requires Inv(c, env) && c.interest == Read && c.inp.Compact().Room() <= 0
    ensures var r := c.(inp := c.inp.Compact(), interest := Write);
            Inv(r, env) && Total(r, env, more) == Total(c, env, more)
  {
  }

  lemma FinalStateCloses(x: Conn, c: Client, to: int, slots: Users.Slots)
    requires !x.aborted && (to == DONE || to == ERROR_POP3)
    ensures var y := Finish(x.(c := c), to, slots).0;
            && y.closed && !y.aborted && y.c.wire == c.wire && y.c.fs == c.fs
            && (UPDATE in y.entered <==> UPDATE in x.entered)
  {
  }

  lemma ReadWithoutBytes(x: Conn, env: Env, slots: Users.Slots, r: Recv, more: string)
    requires InSession(x, env) && Enabled(x, Readable(r)) && !r.Got?
    ensures Conserves(x, OnRead(x, slots, r).0, env, ConnTotal(x, env, more), more)
  {
    ReceiveNothing(x.c, r);
    var (n, to) := Receive(x.c, r, TRANSACTION);
    if to == TRANSACTION {
      FullInputKeeps(x.c, env, more);
      FinishConserves(x, env, slots, n, to, Total(x.c, env, more), more);
    } else {
      FinalStateCloses(x, n, to, slots);
    }
  }

  lemma EventConserves(x: Conn, env: Env, slots: Users.Slots, e: Event, more: string)
    requires InSession(x, env) && Enabled(x, e)
    ensures Conserves(x, Step(x, env, slots, e).0, env, ConnTotal(x, env, Bytes(e) + more), more)
  {
    assert "" + more == more;
    match e
    case Readable(r) => ReadConserves(x, env, slots, r, more);
    case Writable(m) =>
      if x.current == Some(TRANSACTION) {
        WriteConserves(x, env, slots, m, more);
      } else {
        UpdateConserves(x, env, slots, m, more);
      }
    case PipeReadable(k) =>
      PipeStep(x.c, env, k);
      ForwardsKeepsTotal(x.c, PipeReady(x.c, env, k), env, more);
  }

  lemma WireIsPrefix(x: Conn, env: Env, more: string)
    requires InSession(x, env)
    ensures x.c.wire <= ConnTotal(x, env, more).bytes
  {
  }

  /** `y` has come from `x` by events after which the client is to have got `all`, if `more` is received later.
      While the connection lives, what was sent, is buffered, is owed and is still to be answered is all of
      it. What was sent is always a prefix of it. The files are those of the start until UPDATE closes the
      connection, and then are those with all the marks committed. */
  ghost predicate Accounts(x: Conn, y: Conn, env: Env, all: Outcome, more: string) {
    && !y.aborted && IsNewDir(env.dir)
    && (!y.closed ==> InSession(y, env) && ConnTotal(y, env, more) == all)
    && y.c.wire <= all.bytes
    && (Committed(y) ==> all == Outcome(y.c.wire + y.c.out.content, Some(y.c.maildir.mails)))
    && y.c.fs == if Committed(y) then Commit(x.c.fs, env.dir, MailsOf(all.marks)) else x.c.fs
  }

  // One event that closes the connection.
  lemma LastEventAccounts(x: Conn, env: Env, slots: Users.Slots, e: Event, more: string)
    requires InSession(x, env) && Enabled(x, e) && Step(x, env, slots, e).0.closed
    ensures Accounts(x, Step(x, env, slots, e).0, env, ConnTotal(x, env, Bytes(e) + more), more)
  {
    EventConserves(x, env, slots, e, more);
    WireIsPrefix(x, env, Bytes(e) + more);
  }

  // No event at all.
  lemma NothingAccounts(x: Conn, env: Env, more: string)
    requires InSession(x, env)
    ensures Accounts(x, x, env, ConnTotal(x, env, "" + more), more)
  {
    assert "" + more == more;
    WireIsPrefix(x, env, more);
  }

  // One event that goes on, and what follows.
  lemma LiveEventAccounts(x: Conn, env: Env, slots: Users.Slots, e: Event, z: Conn, later: string, more: string)
    requires InSession(x, env) && Enabled(x, e) && !Step(x, env, slots, e).0.closed
    ensures var y := Step(x, env, slots, e).0;
            && InSession(y, env)
            && (Accounts(y, z, env, ConnTotal(y, env, later), more) ==>
                  Accounts(x, z, env, ConnTotal(x, env, Bytes(e) + later), more))
  {
    EventConserves(x, env, slots, e, later);
  }

  lemma FirstReceived(run: seq<Moment>, more: string)
    requires run != []
    ensures Received(run) + more == Bytes(run[0].e) + (Received(run[1..]) + more)
  {
    Assoc(Bytes(run[0].e), Received(run[1..]), more);
  }

  /** Every schedule: from any state of a session, any events in any order. */
  lemma {:induction false} EverySchedule(x: Conn, env: Env, run: seq<Moment>, more: string)
    requires InSession(x, env) && IsRun(x, env, run)
    ensures Accounts(x, After(x, env, run), env, ConnTotal(x, env, Received(run) + more), more)
    decreases |run|
  {
    if run == [] {
      NothingAccounts(x, env, more);
    } else {
      var slots, e := run[0].slots, run[0].e;
      var y := Step(x, env, slots, e).0;
      FirstReceived(run, more);
      if y.closed {
        assert run[1..] == [];
        assert "" + more == more;
        LastEventAccounts(x, env, slots, e, more);
      } else {
        LiveEventAccounts(x, env, slots, e, After(x, env, run), Received(run[1..]) + more, more);
        EverySchedule(y, env, run[1..], more);
      }
    }
  }

  lemma FinishKeepsFiles(x: Conn, c: Client, to: int, slots: Users.Slots)
    ensures Finish(x.(c := c), to, slots).0.c.fs == c.fs
  {
  }

  lemma ReceiveKeepsFiles(c: Client, r: Recv, stay: int)
    ensures Receive(c, r, stay).0.fs == c.fs
  {
  }

  lemma ReadNeverCommits(x: Conn, env: Env, slots: Users.Slots, r: Recv)
    requires InSession(x, env) && Enabled(x, Readable(r))
    ensures var y := OnRead(x, slots, r).0; !Committed(y) && y.c.fs == x.c.fs
  {
    ReadConserves(x, env, slots, r, "");
    ReceiveKeepsFiles(x.c, r, TRANSACTION);
    FinishKeepsFiles(x, Receive(x.c, r, TRANSACTION).0, Receive(x.c, r, TRANSACTION).1, slots);
    JumpToEndOnly(x, Receive(x.c, r, TRANSACTION).0, Receive(x.c, r, TRANSACTION).1, slots);
  }

  lemma JumpToEndOnly(x: Conn, c: Client, to: int, slots: Users.Slots)
    requires !x.closed && UPDATE !in x.entered && to != UPDATE
    ensures !Committed(Finish(x.(c := c), to, slots).0)
  {
  }

  /** Only UPDATE's event touches the files, and no other event closes the connection as committed. */
  lemma FilesWait(x: Conn, env: Env, slots: Users.Slots, e: Event)
    requires InSession(x, env) && Enabled(x, e)
    ensures var y := Step(x, env, slots, e).0;
            && (Committed(y) <==> x.current == Some(UPDATE) && e.Writable?)
            && y.c.fs == if Committed(y) then Commit(x.c.fs, env.dir, x.c.maildir.mails) else x.c.fs
  {
    match e
    case Readable(r) => ReadNeverCommits(x, env, slots, r);
    case Writable(m) =>
      if x.current == Some(TRANSACTION) {
        WriteConserves(x, env, slots, m, "");
      } else {
        UpdateConserves(x, env, slots, m, "");
      }
    case PipeReadable(k) =>
  }

  // ---------- from login to the last byte ----------

  /** A session as AUTH hands it over, with whatever input was pipelined behind PASS. */
  ghost predicate LoggedIn(x: Conn, env: Env) {
    && InSession(x, env) && x.current == Some(TRANSACTION)
    && x.c.finished && !x.c.multiline && x.c.out.content == [] && x.c.parser == INIT_P && x.c.maildir == UNLOADED
  }

  // At login nothing is owed, so the total is the interpretation of the input.
  lemma TotalAtLogin(x: Conn, env: Env, more: string)
    requires LoggedIn(x, env)
    ensures var want := Interpret(env, None, x.c.inp.content + more);
            ConnTotal(x, env, more) == Outcome(x.c.wire + want.bytes, want.marks)
  {
    ResumeIsInterpret(env, None, x.c.inp.content + more);
    assert x.c.wire + [] + "" == x.c.wire;
  }

  lemma NothingMoreToAnswer(y: Conn, env: Env)
    requires InSession(y, env) && y.c.interest == Read
    ensures y.current == Some(TRANSACTION) && ConnTotal(y, env, "").bytes == y.c.wire + y.c.out.content
    ensures |y.c.out.content| <= 3 && y.c.out.content == TERMINATOR[3 - |y.c.out.content|..]
  {
    assert y.c.inp.content + "" == y.c.inp.content;
    assert y.c.wire + y.c.out.content + "" + "" == y.c.wire + y.c.out.content;
  }

  /** Whatever the chunks, the partial sends and the order of client and pipe events: at any moment the client has
      a prefix of what the sequential interpreter sends for the bytes received; when the session is back in READ,
      it has all of it but at most a terminator's tail still in the buffer; and the files change exactly when
      UPDATE closes the connection, by the marks of the interpreter. */
  lemma DeliversInterpretation(x: Conn, env: Env, run: seq<Moment>)
    requires LoggedIn(x, env) && IsRun(x, env, run)
    ensures var y := After(x, env, run);
            var want := Interpret(env, None, x.c.inp.content + Received(run));
            && !y.aborted
            && y.c.wire <= x.c.wire + want.bytes
            && (!y.closed && y.c.interest == Read ==>
                  && y.c.wire + y.c.out.content == x.c.wire + want.bytes
                  && |y.c.out.content| <= 3 && y.c.out.content == TERMINATOR[3 - |y.c.out.content|..])
            && (Committed(y) ==> y.c.wire + y.c.out.content == x.c.wire + want.bytes &&
                                 want.marks == Some(y.c.maildir.mails))
            && y.c.fs == if Committed(y) then Commit(x.c.fs, env.dir, MailsOf(want.marks)) else x.c.fs
  {
    assert Received(run) + "" == Received(run);
    EverySchedule(x, env, run, "");
    TotalAtLogin(x, env, Received(run));
    var y := After(x, env, run);
    if !y.closed && y.c.interest == Read {
      NothingMoreToAnswer(y, env);
    }
  }

  /** From login to a farewell. A session that has read QUIT has delivered everything it was ever to send exactly
      when the one send of UPDATE takes what is pending and the whole farewell; what it does not take is
      lost with the connection. */
  lemma QuitDelivers(x: Conn, env: Env, run: seq<Moment>, slots: Users.Slots, m: nat)
    requires LoggedIn(x, env) && IsRun(x, env, run)
    requires var y := After(x, env, run); !y.closed && y.current == Some(UPDATE)
    ensures var y := After(x, env, run);
            var z := OnWrite(y, env, slots, m).0;
            var want := Interpret(env, None, x.c.inp.content + Received(run));
            && Committed(z) && z.c.wire <= x.c.wire + want.bytes
            && (z.c.wire == x.c.wire + want.bytes <==> m >= |y.c.out.content| + |Farewell(y.c.maildir)|)
  {
    assert Received(run) + "" == Received(run);
    EverySchedule(x, env, run, "");
    TotalAtLogin(x, env, Received(run));
    UpdateConserves(After(x, env, run), env, slots, m, "");
  }

  // ---------- no stall ----------

  /** Everything read is answered, and the session can act on whatever comes next. */
  ghost predicate Waiting(x: Conn, env: Env) {
    && x.current == Some(TRANSACTION) && x.c.interest == Read && x.c.finished && !x.c.multiline
    && Owed(x.c, env) == "" && x.c.inp.content == [] && Live(x.c.parser)
  }

  /** An over-long argument has stopped the parser in the middle of a line. */
  ghost predicate Stuck(x: Conn, env: Env) {
    && InSession(x, env) && x.current == Some(TRANSACTION)
    && x.c.finished && !x.c.multiline && x.c.parser.err == InvalidArg
  }

  /** In every reachable state a write or a pipe event is enabled, or all that was read is answered, or the
      session is stuck. */
  lemma NoStall(x: Conn, env: Env)
    requires InSession(x, env)
    ensures Enabled(x, Writable(1)) || Enabled(x, PipeReadable(1)) || Waiting(x, env) || Stuck(x, env)
  {
  }

  // A stuck session only takes in bytes.
  lemma StuckReads(x: Conn, env: Env, slots: Users.Slots, r: Recv)
    requires Stuck(x, env) && Enabled(x, Readable(r))
    ensures var y := OnRead(x, slots, r).0;
            && y.c.wire == x.c.wire && y.c.out == x.c.out && y.c.fs == x.c.fs && y.c.parser == x.c.parser
            && !Committed(y) && (!y.closed ==> Stuck(y, env))
  {
    ReadConserves(x, env, slots, r, "");
    ReadNeverCommits(x, env, slots, r);
  }

  lemma StuckWrites(x: Conn, env: Env, slots: Users.Slots, m: nat)
    requires Stuck(x, env) && Enabled(x, Writable(m))
    ensures var y := OnWrite(x, env, slots, m).0;
            && y.c.wire == x.c.wire && y.c.out == x.c.out && y.c.fs == x.c.fs && y.c.parser == x.c.parser
            && Stuck(y, env)
  {
    ConsumeLeaves(x.c);
    WaitResult(x.c, env, m);
    WriteConserves(x, env, slots, m, "");
  }

  /** Once stuck, a session sends nothing more and changes no file, whatever comes; it lives until the peer gives
      up or the input buffer is full. */
  lemma {:induction false} StuckForever(x: Conn, env: Env, run: seq<Moment>)
    requires Stuck(x, env) && IsRun(x, env, run)
    ensures var y := After(x, env, run);
            && y.c.wire == x.c.wire && y.c.out == x.c.out && y.c.fs == x.c.fs
            && !Committed(y) && (!y.closed ==> Stuck(y, env))
    decreases |run|
  {
    if run != [] {
      var slots, e := run[0].slots, run[0].e;
      var y := Step(x, env, slots, e).0;
      match e {
        case Readable(r) => StuckReads(x, env, slots, r);
        case Writable(m) => StuckWrites(x, env, slots, m);
      }
      if y.closed {
        assert run[1..] == [];
      } else {
        StuckForever(y, env, run[1..]);
      }
    }
  }

  /** With the input buffer full, the next read event closes a stuck session with an error exactly when no
      terminator's tail is left in the output buffer; with a tail it turns to WRITE, which sends nothing. */
  lemma StuckAndFull(x: Conn, env: Env, slots: Users.Slots, r: Recv)
    requires Stuck(x, env) && x.c.interest == Read && x.c.inp.Compact().Room() <= 0
    ensures var y := OnRead(x, slots, r).0;
            && (x.c.out.content == [] <==> y.closed && y.current == Some(ERROR_POP3))
            && (x.c.out.content != [] ==> !y.closed && y.c.interest == Write)
  {
  }

  /** send_terminator looks at nothing but its one send: the reply is complete exactly when that send took
      the whole terminator. Otherwise the tail stays behind, and with no input waiting the session goes
      to READ over it, so it leaves only with the reply to a later command. */
  lemma TerminatorIsSentIff(c: Client, env: Env, m: nat)
    requires Inv(c, env) && c.interest == Write && c.finished && c.multiline
    ensures var r := SendTerminator(c, m).0;
            && (r.out.content == [] <==> m >= |TERMINATOR|)
            && (r.interest == Read <==> c.inp.content == [])
  {
  }

  /** A run whose terminators were each taken whole. */
  ghost predicate WholeTerminators(x: Conn, env: Env, run: seq<Moment>)
    requires IsNewDir(env.dir) && IsRun(x, env, run)
    decreases |run|
  {
    run != [] ==>
      && (x.current == Some(TRANSACTION) && x.c.finished && x.c.multiline && run[0].e.Writable? ==>
            run[0].e.m >= |TERMINATOR|)
      && WholeTerminators(Step(x, env, run[0].slots, run[0].e).0, env, run[1..])
  }

  ghost predicate Clean(x: Conn) {
    x.c.finished && !x.c.multiline ==> x.c.out.content == []
  }

  // A reply that was sent at once leaves nothing behind.
  lemma RepliedIsClean(c2: Client, msg: string, m: nat)
    ensures var r := Replied(c2, msg, m); r.finished ==> r.out.content == []
  {
  }

  lemma CommandStaysClean(c: Client, env: Env, m: nat)
    requires Inv(c, env) && c.interest == Write && c.finished && !c.multiline && c.out.content == []
    requires Consume(c).parser.ended && VerbOf(Upper(Consume(c).parser.cmd)) != QuitV
    ensures var r := TransProcess(c, env, m).0; r.finished && !r.multiline ==> r.out.content == []
  {
    ConsumeLeaves(c);
    RequestAgrees(Consume(c), env);
    var (c2, msg) := HandleRequest(Consume(c), env);
    ReplyResult(c, env, m);
    RepliedIsClean(c2, msg, m);
  }

  lemma WriteStaysClean(c: Client, env: Env, m: nat)
    requires Inv(c, env) && c.interest == Write
    requires c.finished && !c.multiline ==> c.out.content == []
    requires c.finished && c.multiline ==> m >= |TERMINATOR|
    ensures var (r, to) := TransProcess(c, env, m);
            to == TRANSACTION && r.finished && !r.multiline ==> r.out.content == []
  {
    if c.finished && !c.multiline {
      if !Consume(c).parser.ended {
        ConsumeLeaves(c);
        WaitResult(c, env, m);
      } else if VerbOf(Upper(Consume(c).parser.cmd)) != QuitV {
        CommandStaysClean(c, env, m);
      } else {
        QuitAgrees(Consume(c), env);
      }
    }
  }

  /** If every terminator was taken whole, a session in READ has delivered everything. */
  lemma {:induction false} WholeTerminatorsDeliver(x: Conn, env: Env, run: seq<Moment>)
    requires InSession(x, env) && x.current == Some(TRANSACTION) && Clean(x)
    requires IsRun(x, env, run) && WholeTerminators(x, env, run)
    ensures var y := After(x, env, run);
            !y.closed && y.c.interest == Read ==> y.c.out.content == []
    decreases |run|
  {
    if run != [] {
      var y := Step(x, env, run[0].slots, run[0].e).0;
      EventConserves(x, env, run[0].slots, run[0].e, "");
      if y.closed {
        assert run[1..] == [];
      } else if y.current == Some(TRANSACTION) {
        EventStaysClean(x, env, run[0].slots, run[0].e);
        WholeTerminatorsDeliver(y, env, run[1..]);
      } else {
        UpdateNeverReads(y, env, run[1..]);
      }
    }
  }

  lemma JumpStaysClean(x: Conn, c: Client, to: int, slots: Users.Slots)
    requires x.current == Some(TRANSACTION) && 0 <= to <= ERROR_POP3
    requires to == TRANSACTION && c.finished && !c.multiline ==> c.out.content == []
    ensures var y := Finish(x.(c := c), to, slots).0; y.current == Some(TRANSACTION) ==> Clean(y)
  {
  }

  lemma ReceiveStaysClean(c: Client, r: Recv)
    requires c.finished && !c.multiline ==> c.out.content == []
    ensures var n := Receive(c, r, TRANSACTION).0; n.finished && !n.multiline ==> n.out.content == []
  {
  }

  lemma PipeStaysClean(c: Client, env: Env, k: nat)
    requires Inv(c, env) && c.reader.Registered? && c.reader.interest == Read
    ensures var r := PipeReady(c, env, k); !r.finished
  {
  }

  lemma EventStaysClean(x: Conn, env: Env, slots: Users.Slots, e: Event)
    requires InSession(x, env) && x.current == Some(TRANSACTION) && Clean(x) && Enabled(x, e)
    requires x.c.finished && x.c.multiline && e.Writable? ==> e.m >= |TERMINATOR|
    ensures var y := Step(x, env, slots, e).0; y.current == Some(TRANSACTION) ==> Clean(y)
  {
    match e
    case Readable(r) =>
      ReceiveStaysClean(x.c, r);
      JumpStaysClean(x, Receive(x.c, r, TRANSACTION).0, Receive(x.c, r, TRANSACTION).1, slots);
    case Writable(m) =>
      TransStep(x.c, env, m, "");
      WriteStaysClean(x.c, env, m);
      JumpStaysClean(x, TransProcess(x.c, env, m).0, TransProcess(x.c, env, m).1, slots);
    case PipeReadable(k) => PipeStaysClean(x.c, env, k);
  }

  lemma {:induction false} UpdateNeverReads(x: Conn, env: Env, run: seq<Moment>)
    requires InSession(x, env) && x.current == Some(UPDATE) && IsRun(x, env, run)
    ensures var y := After(x, env, run); y.closed || y.c.interest != Read
    decreases |run|
  {
    if run != [] {
      UpdateConserves(x, env, run[0].slots, run[0].e.m, "");
      assert run[1..] == [];
    }
  }
}
