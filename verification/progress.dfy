/** No schedule of server events goes on for ever: each event in which the kernel takes or yields at least
    one byte uses up a budget fixed by what is still to be sent and read. */
module Progress {
  import opened Text
  import opened Parsers
  import opened Maildrops
  import opened Replies
  import opened Sessions
  import opened Reference
  import opened Delivery
  import opened Answers
  import opened Machine
  import opened Schedules
  import Users

  /** How far the current reply is from its end, counting only events that move no byte to the wire. */
  function Stage(c: Client): nat {
    if c.finished then (if c.multiline then 2 else if c.interest == Write then 1 else 0)
    else match c.filler
      case NoFiller => 3
      case ListAllNew => if c.out.content == [] then 6 else 5
      case LoadMore => if c.interest == NoOp then 7 else if c.out.content == [] then 8 else 5
  }

  /** What an event achieves: bytes sent, bytes read by the parser, stages passed. */
  function Gain(c: Client, r: Client): int {
    16 * (|r.wire| - |c.wire|) + 16 * (|c.inp.content| - |r.inp.content|) + Stage(c) - Stage(r)
  }

  lemma SendingGains(c: Client, env: Env, m: nat)
    requires Inv(c, env) && c.interest == Write && m >= 1
    requires c.out.content != [] && !(c.finished && !c.multiline)
    ensures Gain(c, TransProcess(c, env, m).0) > 0
  {
    SendSomeMoves(c, MAX_BYTES_SEND, m);
    if !c.finished {
      SendDataStep(c, env, m);
      SendDataWire(c, env, m);
    }
  }

  lemma SendDataWire(c: Client, env: Env, m: nat)
    ensures SendData(c, env, m).0.wire == SendSome(c, MAX_BYTES_SEND, m).wire
  {
  }

  lemma RefillingGains(c: Client, env: Env, m: nat)
    requires Inv(c, env) && c.interest == Write && !c.finished && c.out.content == []
    ensures Gain(c, TransProcess(c, env, m).0) > 0
  {
    var c1 := SendSome(c, MAX_BYTES_SEND, m);
    assert c.wire + [] == c.wire;
    assert c1 == c;
    match c.filler
    case ListAllNew =>
      if NextKept(c.maildir.mails, c.listed) == |c.maildir.mails| {
        ListEnds(c, env);
      } else {
        ListGoesOn(c, env);
      }
    case _ =>
  }

  lemma WaitingGains(c: Client, env: Env, m: nat)
    requires Inv(c, env) && c.interest == Write && c.finished && !c.multiline && !Consume(c).parser.ended
    ensures Gain(c, TransProcess(c, env, m).0) > 0
  {
    ConsumeLeaves(c);
    WaitResult(c, env, m);
  }

  lemma AnsweringGains(c: Client, env: Env, m: nat)
    requires Inv(c, env) && c.interest == Write && c.finished && !c.multiline && Consume(c).parser.ended
    requires VerbOf(Upper(Consume(c).parser.cmd)) != QuitV
    ensures Gain(c, TransProcess(c, env, m).0) > 0
  {
    ConsumeLeaves(c);
    RequestAgrees(Consume(c), env);
    var (c2, msg) := HandleRequest(Consume(c), env);
    ReplyResult(c, env, m);
    RepliedWire(c2, msg, m);
  }

  lemma RepliedWire(c2: Client, msg: string, m: nat)
    ensures var r := Replied(c2, msg, m); |r.wire| >= |c2.wire| && r.inp == c2.inp
  {
  }

  /** A write event that stays in TRANSACTION gains, if the peer takes at least a byte when offered one. */
  lemma WriteGains(c: Client, env: Env, m: nat)
    requires Inv(c, env) && c.interest == Write && m >= 1
    ensures var (r, to) := TransProcess(c, env, m); to == TRANSACTION ==> Gain(c, r) > 0
  {
    if !(c.finished && !c.multiline) {
      if c.out.content != [] {
        SendingGains(c, env, m);
      } else {
        RefillingGains(c, env, m);
      }
    } else if !Consume(c).parser.ended {
      WaitingGains(c, env, m);
    } else if VerbOf(Upper(Consume(c).parser.cmd)) != QuitV {
      AnsweringGains(c, env, m);
    } else {
      QuitStep(c, env, m, "");
    }
  }

  lemma PipeGains(c: Client, env: Env, k: nat)
    requires Inv(c, env) && c.reader.Registered? && c.reader.interest == Read && k >= 1
    ensures Gain(c, PipeReady(c, env, k)) > 0
  {
  }

  /** An event the server can take by itself, with at least one byte moved if any is on offer. */
  predicate Productive(e: Event) {
    match e
    case Readable(_) => false
    case Writable(m) => m >= 1
    case PipeReadable(k) => k >= 1
  }

  /** The number of such events that are still possible without new input. */
  ghost function Budget(x: Conn, env: Env): nat
    requires InSession(x, env)
  {
    if x.current == Some(UPDATE) then 1
    else
      assert x.c.wire <= ConnTotal(x, env, "").bytes by { WireIsPrefix(x, env, ""); }
      16 * (|ConnTotal(x, env, "").bytes| - |x.c.wire|) + 16 * |x.c.inp.content| + Stage(x.c) + 2
  }

  // A write event in TRANSACTION.
  lemma WriteUsesBudget(x: Conn, env: Env, slots: Users.Slots, m: nat)
    requires InSession(x, env) && x.current == Some(TRANSACTION) && Enabled(x, Writable(m)) && m >= 1
    ensures var y := OnWrite(x, env, slots, m).0;
            && !y.aborted && !y.closed && InSession(y, env) && Budget(y, env) < Budget(x, env)
  {
    WriteConserves(x, env, slots, m, "");
    TransStep(x.c, env, m, "");
    WriteGains(x.c, env, m);
  }

  // The end of a pipe, or some of it.
  lemma PipeUsesBudget(x: Conn, env: Env, slots: Users.Slots, k: nat)
    requires InSession(x, env) && Enabled(x, PipeReadable(k)) && k >= 1
    ensures var y := Step(x, env, slots, PipeReadable(k)).0;
            && !y.aborted && !y.closed && InSession(y, env) && Budget(y, env) < Budget(x, env)
  {
    EventConserves(x, env, slots, PipeReadable(k), "");
    assert Bytes(PipeReadable(k)) + "" == "";
    PipeGains(x.c, env, k);
  }

  lemma EventUsesBudget(x: Conn, env: Env, slots: Users.Slots, e: Event)
    requires InSession(x, env) && Enabled(x, e) && Productive(e)
    ensures var y := Step(x, env, slots, e).0;
            && !y.aborted && (y.closed ==> x.current == Some(UPDATE))
            && (!y.closed ==> InSession(y, env) && Budget(y, env) < Budget(x, env))
  {
    match e
    case Writable(m) =>
      if x.current == Some(TRANSACTION) {
        WriteUsesBudget(x, env, slots, m);
      } else {
        UpdateConserves(x, env, slots, m, "");
      }
    case PipeReadable(k) => PipeUsesBudget(x, env, slots, k);
  }

  /** Every run of productive events is finite, with a bound known from its first state. */
  lemma {:induction false} NoEndlessRun(x: Conn, env: Env, run: seq<Moment>)
    requires InSession(x, env) && IsRun(x, env, run)
    requires forall i :: 0 <= i < |run| ==> Productive(run[i].e)
    ensures |run| <= Budget(x, env)
    decreases |run|
  {
    if run != [] {
      EventUsesBudget(x, env, run[0].slots, run[0].e);
      var y := Step(x, env, run[0].slots, run[0].e).0;
      if y.closed {
        assert run[1..] == [];
      } else {
        NoEndlessRun(y, env, run[1..]);
      }
    }
  }

  /** So every run that is carried on until no server event is enabled has delivered: the whole
      interpretation of what was received, but for a terminator's tail. */
  lemma SettledRunsDeliver(x: Conn, env: Env, run: seq<Moment>)
    requires LoggedIn(x, env) && IsRun(x, env, run)
    requires var y := After(x, env, run); !y.closed && !Enabled(y, Writable(1)) && !Enabled(y, PipeReadable(1))
    ensures var y := After(x, env, run);
            var want := Interpret(env, None, x.c.inp.content + Received(run));
            y.c.wire + y.c.out.content == x.c.wire + want.bytes && |y.c.out.content| <= 3
    ensures WholeTerminators(x, env, run) ==> After(x, env, run).c.out.content == []
  {
    EverySchedule(x, env, run, "");
    NoStall(After(x, env, run), env);
    DeliversInterpretation(x, env, run);
    if WholeTerminators(x, env, run) {
      WholeTerminatorsDeliver(x, env, run);
    }
  }

  // ---------- RETR ----------

  lemma RespondToRetr(env: Env, box: Box, arg: string, mails: seq<Mail>, n: nat)
    requires Open(env, box) == Some(mails) && Atoi(FirstToken(arg)) == n && 1 <= n <= |mails|
    ensures var f := mails[n - 1].file;
            var r := Respond(env, box, RetrV, arg);
            !r.quit && r.text == RetrHeader(f.size) + f.output + Suffix(env) + TERMINATOR
  {
  }

  /** The session is about to answer RETR n, and `mails` is its list. */
  ghost predicate Retrieving(x: Conn, env: Env, mails: seq<Mail>, n: nat) {
    && InSession(x, env) && x.current == Some(TRANSACTION)
    && x.c.finished && !x.c.multiline && Consume(x.c).parser.ended
    && var p := Consume(x.c).parser;
    && Upper(p.cmd) == "RETR" && Atoi(FirstToken(p.arg)) == n
    && Open(env, BoxOf(x.c.maildir)) == Some(mails) && 1 <= n <= |mails|
  }

  // The reply comes first in what is still to be sent.
  lemma RetrComesNext(x: Conn, env: Env, mails: seq<Mail>, n: nat, more: string)
    requires Retrieving(x, env, mails, n)
    ensures var f := mails[n - 1].file;
            x.c.wire + x.c.out.content + (RetrHeader(f.size) + f.output + Suffix(env) + TERMINATOR)
              <= ConnTotal(x, env, more).bytes
  {
    ConsumeLeaves(x.c);
    var p := Consume(x.c).parser;
    var box := BoxOf(x.c.maildir);
    ResumeSplit(env, box, x.c.parser, x.c.inp.content, more);
    RespondToRetr(env, box, p.arg, mails, n);
    var r := Respond(env, box, RetrV, p.arg);
    var later := Resume(env, r.box, INIT_P, Consume(x.c).inp.content + more);
    var pre := x.c.wire + x.c.out.content;
    assert pre + "" == pre;
    Assoc(pre, r.text, later.bytes);
  }

  /** RETR at any point of a session, whatever is pipelined behind it and whatever the order in which the client
      takes bytes and the pipe yields them: the client's stream goes on with the header, every byte of the pipe
      once and in order, and the terminator; at any moment it has a prefix of that or all of it, and all but
      a terminator's tail by the time the session has nothing left to do. */
  lemma RetrIsDelivered(x: Conn, env: Env, run: seq<Moment>, mails: seq<Mail>, n: nat)
    requires Retrieving(x, env, mails, n) && IsRun(x, env, run)
    ensures var y := After(x, env, run);
            var f := mails[n - 1].file;
            var want := x.c.wire + x.c.out.content + (RetrHeader(f.size) + f.output + Suffix(env) + TERMINATOR);
            && (y.c.wire <= want || want <= y.c.wire)
            && (!y.closed && !Enabled(y, Writable(1)) && !Enabled(y, PipeReadable(1)) ==>
                  want <= y.c.wire + y.c.out.content && |y.c.out.content| <= 3)
            && (Committed(y) ==> want <= y.c.wire + y.c.out.content)
  {
    var y := After(x, env, run);
    RetrComesNext(x, env, mails, n, Received(run) + "");
    EverySchedule(x, env, run, "");
    if !y.closed && !Enabled(y, Writable(1)) && !Enabled(y, PipeReadable(1)) {
      NoStall(y, env);
      NothingMoreToAnswer(y, env);
    }
  }
}
