/** AUTH as a conversation: line by line, each command against the user table as the other sessions have
    left it. With replies that are sent whole, every schedule sends exactly this. */
module Dialogues {
  import opened Text
  import opened Parsers
  import opened Maildrops
  import opened Replies
  import opened Sessions
  import opened Reference
  import opened Delivery
  import opened Machine
  import opened Schedules
  import opened Lifecycle
  import opened Logins
  import Users

  // ---------- the reference ----------

  /** What each command is answered, from the name held and the table before and after it. */
  function AuthText(verb: AuthVerb, arg: string, user: string, before: Users.Slots, after: Users.Slots,
                    ok: bool): string
  {
    match verb
    case QuitA => "+OK closing connection\r\n"
    case CapaA => if Users.GetState(after, user) == Users.Logging then "+OK valid user\r\n" else CAPABILITIES
    case UserA =>
      if ok then "+OK valid user\r\n"
      else if Users.Exists(before, arg) then "-ERR user already online\r\n"
      else "-ERR never heard of that user\r\n"
    case PassA =>
      if ok then "+OK logged in\r\n"
      else if user == "" then "-ERR cant use PASS before USER\r\n"
      else "-ERR invalid password :(\r\n"
    case NoAuthVerb => INVALID_COMMAND
  }

  /** The bytes sent, the login state reached, the next phase, and the input not yet answered. */
  datatype Talk = Talk(bytes: string, login: Login, to: int, rest: string) {
    function Behind(text: string): Talk {
      this.(bytes := text + bytes)
    }
  }

  // One command and what follows it.
  function Exchange(l: Login, slots: Users.Slots, verb: AuthVerb, arg: string): (string, Login) {
    var (l2, after, ok) := AuthCommand(l, slots, verb, arg);
    (AuthText(verb, arg, l.user, slots, after, ok), l2)
  }

  /** Answers one complete line for each of the tables. */
  function Converse(l: Login, stream: string, tables: seq<Users.Slots>): Talk
    decreases |tables|
  {
    if tables == [] || !Complete(stream) || !Fits(Body(stream)) then Talk("", l, AUTH, stream)
    else
      var body, rest := Body(stream), stream[LineLen(stream)..];
      var (text, l2) := Exchange(l, tables[0], AuthVerbOf(CmdOf(Pop3, body)), ArgOf(body));
      if l2.next != AUTH then Talk(text, l2, l2.next, rest)
      else Converse(l2.(next := -1), rest, tables[1..]).Behind(text)
  }

  /** The same from a parser that holds the start of a line. `rest` is then what it has not consumed. */
  function ConverseFrom(l: Login, p: P, stream: string, tables: seq<Users.Slots>): Talk
    decreases |tables|
  {
    var (q, rest) := Feed(Pop3, p, stream);
    if tables == [] || !q.ended then Talk("", l, AUTH, rest)
    else
      var (text, l2) := Exchange(l, tables[0], AuthVerbOf(q.cmd), q.arg);
      if l2.next != AUTH then Talk(text, l2, l2.next, rest)
      else ConverseFrom(l2.(next := -1), INIT_P, rest, tables[1..]).Behind(text)
  }

  /** Reading line by line and running the resumable parser say the same; and what is left is the same
      once the phase is over. */
  lemma {:induction false} ConverseFromIsConverse(l: Login, stream: string, tables: seq<Users.Slots>)
    ensures var a, b := Converse(l, stream, tables), ConverseFrom(l, INIT_P, stream, tables);
            a.bytes == b.bytes && a.login == b.login && a.to == b.to && (a.to != AUTH ==> a.rest == b.rest)
    decreases |tables|
  {
    FeedIsGrammar(Pop3, stream);
    var (q, rest) := Feed(Pop3, INIT_P, stream);
    if tables != [] && q.ended {
      var (text, l2) := Exchange(l, tables[0], AuthVerbOf(q.cmd), q.arg);
      ConverseFromIsConverse(l2.(next := -1), rest, tables[1..]);
    }
  }

  // ---------- one command ----------

  function LoginOf(c: Client): Login {
    Login(c.user, c.err, c.next)
  }

  // GenerateMsg reads the answer off the error code and the table; AuthText says which it should be.
  ghost predicate Answered(c: Client, slots: Users.Slots) {
    var (r, after, ok) := ProcessCmd(c, slots);
    GenerateMsg(r, after, ok) == Exchange(LoginOf(c), slots, AuthVerbOf(c.parser.cmd), c.parser.arg).0
  }

  lemma UserAnswered(c: Client, slots: Users.Slots)
    requires !c.parser.quit && AuthVerbOf(c.parser.cmd) == UserA
    ensures Answered(c, slots)
  {
    if Users.GetState(slots, c.parser.arg) == Users.Offline {
      ClaimedName(c.user, slots, c.parser.arg);
    }
  }

  lemma PassAnswered(c: Client, slots: Users.Slots)
    requires !c.parser.quit && AuthVerbOf(c.parser.cmd) == PassA
    ensures Answered(c, slots)
  {
    if Users.CheckPass(slots, c.user, c.parser.arg) {
      Users.FirstIsFind(Users.SetState(slots, c.user, Users.Online), c.user, Users.Find(slots, c.user));
    }
  }

  lemma OtherAnswered(c: Client, slots: Users.Slots)
    requires !c.parser.quit && c.err != BadChar
    requires AuthVerbOf(c.parser.cmd) in {QuitA, CapaA, NoAuthVerb}
    ensures Answered(c, slots)
  {
  }

  lemma CommandAnswered(c: Client, slots: Users.Slots)
    requires !c.parser.quit && c.err != BadChar
    ensures Answered(c, slots)
  {
    match AuthVerbOf(c.parser.cmd)
    case UserA => UserAnswered(c, slots);
    case PassA => PassAnswered(c, slots);
    case _ => OtherAnswered(c, slots);
  }

  lemma CommandLogin(c: Client, slots: Users.Slots)
    ensures LoginOf(ProcessCmd(c, slots).0) == Exchange(LoginOf(c), slots, AuthVerbOf(c.parser.cmd), c.parser.arg).1
  {
  }

  // ---------- one event ----------

  /** AUTH between two replies, nothing unsent. */
  ghost predicate Clean(c: Client) {
    AuthInv(c) && c.out.content == [] && !c.parser.quit && c.next == -1
  }

  // What was sent, then what the conversation will send, if `more` is received and `tables` are met.
  function Saying(c: Client, more: string, tables: seq<Users.Slots>): Talk {
    ConverseFrom(LoginOf(c), c.parser, c.inp.content + more, tables).Behind(c.wire)
  }

  lemma {:induction false} FeedKeepsQuit(d: Dialect, p: P, s: string)
    ensures Feed(d, p, s).0.quit == p.quit
    decreases |s|
  {
    if Live(p) && s != [] {
      FeedKeepsQuit(d, ProcessChar(d, p, s[0]), s[1..]);
    }
  }

  // The parser stops in the same state when more bytes follow.
  lemma ConverseSplit(l: Login, p: P, a: string, b: string, tables: seq<Users.Slots>)
    ensures var (q, rest) := Feed(Pop3, p, a);
            && (!q.ended ==> ConverseFrom(l, p, a + b, tables) == ConverseFrom(l, q, rest + b, tables))
            && (q.ended ==> Feed(Pop3, p, a + b) == (q, rest + b))
  {
    FeedSplit(Pop3, p, a, b);
    var (q, rest) := Feed(Pop3, p, a);
    if Live(q) {
      assert rest + b == b;
    }
  }

  // An incomplete line.
  lemma WaitSays(c: Client, slots: Users.Slots, m: nat, more: string, later: seq<Users.Slots>)
    requires Clean(c) && c.interest == Write && !Consume(c).parser.ended
    ensures var (r, after, to) := AuthProcess(c, slots, m);
            to == AUTH && Clean(r) && Saying(r, more, later) == Saying(c, more, later)
  {
    ConsumeLeaves(c);
    FeedKeepsQuit(Pop3, c.parser, c.inp.content);
    ConverseSplit(LoginOf(c), c.parser, c.inp.content, more, later);
  }

  // A command that is answered whole.
  ghost predicate Exchanged(c: Client, slots: Users.Slots, r: Client, to: int) {
    var (text, l2) := Exchange(LoginOf(c), slots, AuthVerbOf(c.parser.cmd), c.parser.arg);
    && r.wire == c.wire + text && to == l2.next && LoginOf(r) == l2.(next := -1)
    && r.inp == c.inp && r.out.content == [] && (to == AUTH ==> r.parser == INIT_P)
    && (to == AUTH || to == TRANSACTION || to == DONE)
  }

  lemma AnswerExchanges(c: Client, slots: Users.Slots, m: nat)
    requires BuffersOk(c) && c.out.content == [] && c.err != BadChar && !c.parser.quit
    requires var (r, after, ok) := ProcessCmd(c, slots); m >= |GenerateMsg(r, after, ok)|
    ensures var (r, after, to) := AuthAnswer(c, slots, m); Exchanged(c, slots, r, to)
  {
    ProcessCmdShape(c, slots);
    CommandAnswered(c, slots);
    CommandLogin(c, slots);
    var (c1, after, ok) := ProcessCmd(c, slots);
    var msg := GenerateMsg(c1, after, ok);
    AuthMsgIsShort(c1, after, ok);
    WriteMsgShape(c1, msg, m);
    WholeSend(c1, msg, m);
  }

  lemma WholeSend(c: Client, msg: string, m: nat)
    requires BuffersOk(c) && c.out.content == [] && |msg| <= m
    ensures WriteMsg(c, msg, m).wire == c.wire + msg
  {
    assert [] + msg == msg;
    assert msg[..|msg|] == msg;
  }

  lemma FirstExchange(l: Login, p: P, stream: string, slots: Users.Slots, later: seq<Users.Slots>)
    requires Feed(Pop3, p, stream).0.ended
    ensures var (q, rest) := Feed(Pop3, p, stream);
            var (text, l2) := Exchange(l, slots, AuthVerbOf(q.cmd), q.arg);
            ConverseFrom(l, p, stream, [slots] + later) ==
            if l2.next != AUTH then Talk(text, l2, l2.next, rest)
            else ConverseFrom(l2.(next := -1), INIT_P, rest, later).Behind(text)
  {
    assert ([slots] + later)[1..] == later;
  }

  lemma BehindBoth(t: Talk, a: string, b: string)
    ensures t.Behind(b).Behind(a) == t.Behind(a + b)
  {
    Assoc(a, b, t.bytes);
  }

  // What is said, read off the exchange.
  lemma ExchangeSays(c: Client, c1: Client, slots: Users.Slots, r: Client, to: int,
                     more: string, later: seq<Users.Slots>)
    requires Exchanged(c1, slots, r, to) && LoginOf(c1) == LoginOf(c) && c1.wire == c.wire
    requires Feed(Pop3, c.parser, c.inp.content + more) == (c1.parser, c1.inp.content + more) && c1.parser.ended
    ensures to == AUTH ==> Saying(r, more, later) == Saying(c, more, [slots] + later)
    ensures to != AUTH ==>
              Saying(c, more, [slots] + later) == Talk(r.wire, LoginOf(r).(next := to), to, r.inp.content + more)
  {
    FirstExchange(LoginOf(c), c.parser, c.inp.content + more, slots, later);
    var (text, l2) := Exchange(LoginOf(c), slots, AuthVerbOf(c1.parser.cmd), c1.parser.arg);
    BehindBoth(ConverseFrom(LoginOf(r), INIT_P, r.inp.content + more, later), c.wire, text);
  }

  // A complete line.
  lemma AnswerSays(c: Client, slots: Users.Slots, m: nat, more: string, later: seq<Users.Slots>)
    requires Clean(c) && c.interest == Write && Consume(c).parser.ended && m >= |NextReply(c, slots)|
    ensures var (r, after, to) := AuthProcess(c, slots, m);
            && (to == AUTH || to == TRANSACTION || to == DONE)
            && (to == AUTH ==> Clean(r) && Saying(r, more, later) == Saying(c, more, [slots] + later))
            && (to != AUTH ==>
                  Saying(c, more, [slots] + later) == Talk(r.wire, LoginOf(r).(next := to), to, r.inp.content + more))
  {
    AuthStep(c, slots, m);
    ConsumeLeaves(c);
    FeedKeepsQuit(Pop3, c.parser, c.inp.content);
    var c1 := Consume(c);
    var (r, after, to) := AuthAnswer(c1, slots, m);
    assert AuthProcess(c, slots, m) == (r, after, to);
    AnswerExchanges(c1, slots, m);
    ConverseSplit(LoginOf(c), c.parser, c.inp.content, more, later);
    ExchangeSays(c, c1, slots, r, to, more, later);
  }

  // ---------- every schedule of AUTH ----------

  // The reply to the next complete line.
  function NextReply(c: Client, slots: Users.Slots): string {
    var (r, after, ok) := ProcessCmd(Consume(c), slots);
    GenerateMsg(r, after, ok)
  }

  /** A send that takes the whole reply, if there is one to make. */
  predicate TakenWhole(c: Client, slots: Users.Slots, m: nat) {
    Consume(c).parser.ended ==> m >= |NextReply(c, slots)|
  }

  /** Events of AUTH only, every reply taken whole; the last of them may leave the phase. */
  ghost predicate TalkRun(x: Conn, env: Env, run: seq<Moment>)
    requires IsNewDir(env.dir) && IsRun(x, env, run)
    decreases |run|
  {
    run != [] ==>
      && x.current == Some(AUTH) && (run[0].e.Writable? ==> TakenWhole(x.c, run[0].slots, run[0].e.m))
      && TalkRun(Step(x, env, run[0].slots, run[0].e).0, env, run[1..])
  }

  /** The user tables that the commands of a run meet. */
  ghost function TablesMet(x: Conn, env: Env, run: seq<Moment>): seq<Users.Slots>
    requires IsNewDir(env.dir) && IsRun(x, env, run)
    decreases |run|
  {
    if run == [] then []
    else
      (if run[0].e.Writable? && Consume(x.c).parser.ended then [run[0].slots] else []) +
      TablesMet(Step(x, env, run[0].slots, run[0].e).0, env, run[1..])
  }

  ghost predicate Talking(x: Conn, env: Env) {
    ConnInv(x, env) && x.current == Some(AUTH) && !x.closed && Clean(x.c)
  }

  /** Where a run of AUTH has got to, `said` being what it was to say and leave. */
  ghost predicate HasSaid(y: Conn, env: Env, said: Talk) {
    && y.c.wire == said.bytes
    && (y.current == Some(TRANSACTION) ==>
          said.to == TRANSACTION && LoggedIn(y, env) && y.c.inp.content == said.rest && y.c.user == said.login.user)
  }

  lemma ReadTalks(x: Conn, env: Env, slots: Users.Slots, r: Recv, more: string, tables: seq<Users.Slots>)
    requires Talking(x, env) && Enabled(x, Readable(r))
    ensures var y := OnRead(x, slots, r).0;
            && (!y.closed ==>
                  Talking(y, env) && Saying(y.c, more, tables) == Saying(x.c, Bytes(Readable(r)) + more, tables))
            && (y.closed ==> y.c.wire == x.c.wire && y.current != Some(TRANSACTION))
  {
    AuthReadStep(x, env, slots, r);
    AuthReceives(x.c, r);
    ReceiveTalks(x.c, r, more, tables);
    var (n, to) := Receive(x.c, r, AUTH);
    if to != AUTH {
      FinalStateCloses(x, n, to, slots);
    }
  }

  // recv in AUTH: the bytes go behind the input.
  lemma ReceiveTalks(c: Client, r: Recv, more: string, tables: seq<Users.Slots>)
    requires Clean(c) && c.interest == Read && (r.Got? ==> 0 < |r.bytes| <= RecvRoom(c))
    ensures var (n, to) := Receive(c, r, AUTH);
            var bytes := if r.Got? then r.bytes else "";
            && n.wire == c.wire
            && (to == AUTH && (r.Got? ==> AllLegal(r.bytes)) ==>
                  Clean(n) && Saying(n, more, tables) == Saying(c, bytes + more, tables))
  {
    if r.Got? {
      assert Take(r.bytes, RecvRoom(c)) == r.bytes;
      Assoc(c.inp.content, r.bytes, more);
    } else {
      assert "" + more == more;
    }
  }

  lemma WriteWaits(x: Conn, env: Env, slots: Users.Slots, m: nat, more: string, later: seq<Users.Slots>)
    requires Talking(x, env) && Enabled(x, Writable(m)) && !Consume(x.c).parser.ended
    ensures var y := OnWrite(x, env, slots, m).0;
            y.current == Some(AUTH) && Talking(y, env) && Saying(y.c, more, later) == Saying(x.c, more, later)
  {
    AuthWriteStep(x, env, slots, m);
    WaitSays(x.c, slots, m, more, later);
  }

  // The jump out of AUTH after an answer.
  lemma AnswerJumps(x: Conn, env: Env, slots: Users.Slots, r: Client, to: int)
    requires x.current == Some(AUTH) && !x.closed && (to == AUTH || to == TRANSACTION || to == DONE)
    ensures var y := Finish(x.(c := r), to, slots).0;
            && y.c.wire == r.wire && y.c.inp == r.inp && y.c.user == r.user && y.current == Some(to)
            && (to == AUTH ==> y == x.(c := r))
  {
  }

  lemma WriteAnswers(x: Conn, env: Env, slots: Users.Slots, m: nat, more: string, later: seq<Users.Slots>)
    requires Talking(x, env) && Enabled(x, Writable(m)) && TakenWhole(x.c, slots, m) && Consume(x.c).parser.ended
    ensures var y := OnWrite(x, env, slots, m).0;
            && (y.current == Some(AUTH) ==>
                  Talking(y, env) && Saying(y.c, more, later) == Saying(x.c, more, [slots] + later))
            && (y.current != Some(AUTH) && more == "" ==> HasSaid(y, env, Saying(x.c, more, [slots] + later)))
  {
    AuthWriteStep(x, env, slots, m);
    AnswerSays(x.c, slots, m, more, later);
    var (r, after, to) := AuthProcess(x.c, slots, m);
    AnswerJumps(x, env, after, r, to);
  }

  lemma WriteTalks(x: Conn, env: Env, slots: Users.Slots, m: nat, more: string, later: seq<Users.Slots>)
    requires Talking(x, env) && Enabled(x, Writable(m)) && TakenWhole(x.c, slots, m)
    ensures var y := OnWrite(x, env, slots, m).0;
            var tables := (if Consume(x.c).parser.ended then [slots] else []) + later;
            && (y.current == Some(AUTH) ==> Talking(y, env) && Saying(y.c, more, later) == Saying(x.c, more, tables))
            && (y.current != Some(AUTH) && more == "" ==> HasSaid(y, env, Saying(x.c, more, tables)))
  {
    if Consume(x.c).parser.ended {
      WriteAnswers(x, env, slots, m, more, later);
    } else {
      WriteWaits(x, env, slots, m, more, later);
      assert [] + later == later;
    }
  }

  // A received chunk, then the rest of the run.
  lemma TalkAfterRead(x: Conn, env: Env, run: seq<Moment>)
    requires Talking(x, env) && IsRun(x, env, run) && TalkRun(x, env, run) && run != [] && run[0].e.Readable?
    requires var y := Step(x, env, run[0].slots, run[0].e).0;
             !y.closed ==>
               HasSaid(After(x, env, run), env, Saying(y.c, Received(run[1..]), TablesMet(y, env, run[1..])))
    ensures HasSaid(After(x, env, run), env, Saying(x.c, Received(run), TablesMet(x, env, run)))
  {
    var y := Step(x, env, run[0].slots, run[0].e).0;
    var more, later := Received(run[1..]), TablesMet(y, env, run[1..]);
    ReadTalks(x, env, run[0].slots, run[0].e.r, more, later);
    assert [] + later == later;
    if y.closed {
      assert run[1..] == [];
      NothingSaid(x.c, Received(run));
    }
  }

  // A chance to write, then the rest of the run.
  lemma TalkAfterWrite(x: Conn, env: Env, run: seq<Moment>)
    requires Talking(x, env) && IsRun(x, env, run) && TalkRun(x, env, run) && run != [] && run[0].e.Writable?
    requires var y := Step(x, env, run[0].slots, run[0].e).0;
             y.current == Some(AUTH) ==>
               HasSaid(After(x, env, run), env, Saying(y.c, Received(run[1..]), TablesMet(y, env, run[1..])))
    ensures HasSaid(After(x, env, run), env, Saying(x.c, Received(run), TablesMet(x, env, run)))
  {
    var y := Step(x, env, run[0].slots, run[0].e).0;
    var more, later := Received(run[1..]), TablesMet(y, env, run[1..]);
    WriteTalks(x, env, run[0].slots, run[0].e.m, more, later);
    assert "" + more == more;
    if y.current != Some(AUTH) {
      assert run[1..] == [];
    }
  }

  /** Every schedule of AUTH whose replies are taken whole sends the conversation, line by line, over what was
      received, however it was cut; and hands over to TRANSACTION exactly the input behind PASS. */
  lemma {:induction false} EveryTalk(x: Conn, env: Env, run: seq<Moment>)
    requires Talking(x, env) && IsRun(x, env, run) && TalkRun(x, env, run)
    ensures HasSaid(After(x, env, run), env, Saying(x.c, Received(run), TablesMet(x, env, run)))
    decreases |run|
  {
    if run == [] {
      NothingSaid(x.c, Received(run));
    } else {
      var slots, e := run[0].slots, run[0].e;
      var y := Step(x, env, slots, e).0;
      if e.Readable? {
        ReadTalks(x, env, slots, e.r, "", []);
        if !y.closed {
          EveryTalk(y, env, run[1..]);
        }
        TalkAfterRead(x, env, run);
      } else {
        WriteTalks(x, env, slots, e.m, "", []);
        if y.current == Some(AUTH) {
          EveryTalk(y, env, run[1..]);
        }
        TalkAfterWrite(x, env, run);
      }
    }
  }

  // No more commands are met.
  lemma NothingSaid(c: Client, more: string)
    ensures Saying(c, more, []).bytes == c.wire
  {
    assert c.wire + "" == c.wire;
  }

  // ---------- AUTH answers everything ----------

  // Where the run stands, and what it would say if it met the tables `t` next.
  lemma {:induction false} TalkCarriesOn(x: Conn, env: Env, run: seq<Moment>, t: seq<Users.Slots>)
    requires Talking(x, env) && IsRun(x, env, run) && TalkRun(x, env, run)
    requires var y := After(x, env, run); y.current == Some(AUTH) && !y.closed
    ensures Talking(After(x, env, run), env)
    ensures Saying(x.c, Received(run), TablesMet(x, env, run) + t) == Saying(After(x, env, run).c, "", t)
    decreases |run|
  {
    if run == [] {
      assert [] + t == t;
    } else {
      var slots, e := run[0].slots, run[0].e;
      var y := Step(x, env, slots, e).0;
      TalkStays(x, env, run);
      if e.Readable? {
        TalkReadsOn(x, env, run, t);
      } else {
        TalkWritesOn(x, env, run, t);
      }
      TalkCarriesOn(y, env, run[1..], t);
    }
  }

  // A run that ends in AUTH never leaves it.
  lemma TalkStays(x: Conn, env: Env, run: seq<Moment>)
    requires IsNewDir(env.dir) && IsRun(x, env, run) && TalkRun(x, env, run) && run != []
    requires var z := After(x, env, run); z.current == Some(AUTH) && !z.closed
    ensures var y := Step(x, env, run[0].slots, run[0].e).0; y.current == Some(AUTH) && !y.closed
  {
  }

  lemma TalkReadsOn(x: Conn, env: Env, run: seq<Moment>, t: seq<Users.Slots>)
    requires Talking(x, env) && IsRun(x, env, run) && TalkRun(x, env, run) && run != [] && run[0].e.Readable?
    requires !Step(x, env, run[0].slots, run[0].e).0.closed
    ensures var y := Step(x, env, run[0].slots, run[0].e).0;
            && Talking(y, env)
            && Saying(x.c, Received(run), TablesMet(x, env, run) + t) ==
               Saying(y.c, Received(run[1..]), TablesMet(y, env, run[1..]) + t)
  {
    var y := Step(x, env, run[0].slots, run[0].e).0;
    var later := TablesMet(y, env, run[1..]);
    ReadTalks(x, env, run[0].slots, run[0].e.r, Received(run[1..]), later + t);
    assert [] + later == later;
  }

  lemma TablesGroup(a: seq<Users.Slots>, b: seq<Users.Slots>, c: seq<Users.Slots>)
    ensures (a + b) + c == a + (b + c)
  {
  }

  lemma TalkWritesOn(x: Conn, env: Env, run: seq<Moment>, t: seq<Users.Slots>)
    requires Talking(x, env) && IsRun(x, env, run) && TalkRun(x, env, run) && run != [] && run[0].e.Writable?
    requires Step(x, env, run[0].slots, run[0].e).0.current == Some(AUTH)
    ensures var y := Step(x, env, run[0].slots, run[0].e).0;
            && Talking(y, env)
            && Saying(x.c, Received(run), TablesMet(x, env, run) + t) ==
               Saying(y.c, Received(run[1..]), TablesMet(y, env, run[1..]) + t)
  {
    var y := Step(x, env, run[0].slots, run[0].e).0;
    var more, later := Received(run[1..]), TablesMet(y, env, run[1..]);
    WriteTalks(x, env, run[0].slots, run[0].e.m, more, later + t);
    TablesGroup(if Consume(x.c).parser.ended then [run[0].slots] else [], later, t);
    assert "" + more == more;
  }

  // In READ there is no line left to answer.
  lemma QuietSaysNothing(c: Client, t: seq<Users.Slots>)
    requires Clean(c) && c.interest == Read
    ensures Saying(c, "", t).bytes == c.wire
  {
    assert c.inp.content + "" == c.inp.content;
    assert c.wire + "" == c.wire;
  }

  /** AUTH in READ has answered every complete line it has received: were it to meet any further tables `t`, it
      would have nothing more to say. */
  lemma TalkIsPrompt(x: Conn, env: Env, run: seq<Moment>, t: seq<Users.Slots>)
    requires Talking(x, env) && IsRun(x, env, run) && TalkRun(x, env, run)
    requires var y := After(x, env, run); y.current == Some(AUTH) && !y.closed && y.c.interest == Read
    ensures Saying(x.c, Received(run), TablesMet(x, env, run) + t).bytes == After(x, env, run).c.wire
  {
    TalkCarriesOn(x, env, run, t);
    QuietSaysNothing(After(x, env, run).c, t);
  }

  // What is left to parse, and a chance to write.
  function TalkBudget(x: Conn): nat {
    2 * |x.c.inp.content| + (if x.c.interest == Write then 1 else 0)
  }

  /** In AUTH with nothing unsent either a write event is enabled or the session is in READ. */
  lemma TalkNeverStalls(x: Conn, env: Env)
    requires Talking(x, env)
    ensures Enabled(x, Writable(MAX_REPLY)) || x.c.interest == Read
  {
  }

  lemma WriteUsesTalkBudget(x: Conn, env: Env, slots: Users.Slots, m: nat)
    requires Talking(x, env) && Enabled(x, Writable(m)) && TakenWhole(x.c, slots, m)
    ensures var y := OnWrite(x, env, slots, m).0;
            y.current == Some(AUTH) ==> Talking(y, env) && TalkBudget(y) < TalkBudget(x)
  {
    WriteTalks(x, env, slots, m, "", []);
    ConsumeLeaves(x.c);
    AuthWriteConsumes(x.c, slots, m);
  }

  // A line takes at least a byte; without one the session goes to READ.
  lemma AuthWriteConsumes(c: Client, slots: Users.Slots, m: nat)
    requires Clean(c) && c.interest == Write
    ensures var (r, after, to) := AuthProcess(c, slots, m);
            && r.inp.content == Feed(Pop3, c.parser, c.inp.content).1
            && (Consume(c).parser.ended ==> |r.inp.content| < |c.inp.content|)
            && (!Consume(c).parser.ended ==> r.interest == Read && to == AUTH)
  {
    ConsumeLeaves(c);
    AnswerKeepsInput(Consume(c), slots, m);
  }

  lemma AnswerKeepsInput(c: Client, slots: Users.Slots, m: nat)
    ensures AuthAnswer(c, slots, m).0.inp == c.inp
  {
  }

  /** Write events alone cannot keep AUTH busy for ever. */
  lemma {:induction false} TalkEnds(x: Conn, env: Env, run: seq<Moment>)
    requires Talking(x, env) && IsRun(x, env, run) && TalkRun(x, env, run)
    requires forall k :: 0 <= k < |run| ==> run[k].e.Writable?
    ensures |run| <= TalkBudget(x)
    decreases |run|
  {
    if run != [] {
      var y := Step(x, env, run[0].slots, run[0].e).0;
      WriteUsesTalkBudget(x, env, run[0].slots, run[0].e.m);
      if y.current == Some(AUTH) {
        TalkEnds(y, env, run[1..]);
      } else {
        assert run[1..] == [];
      }
    }
  }

  // ---------- from accept to the last byte ----------

  /** A greeting that is taken whole opens the conversation. */
  lemma GreetingOpens(fs: Files, env: Env, slots: Users.Slots, m: nat)
    requires EnvOk(env) && m >= |GREETING|
    ensures var y := OnWrite(NewConn(fs), env, slots, m).0;
            && Talking(y, env) && LoginOf(y.c) == Login("", NoErr, -1) && y.c.parser == INIT_P
            && y.c.inp.content == "" && y.c.wire == GREETING && y.c.fs == fs
  {
    GreetingStep(NewConn(fs), env, slots, m);
    assert GREETING[..|GREETING|] == GREETING;
    assert "" + GREETING == GREETING;
  }

  lemma {:induction false} TalkKeepsFiles(x: Conn, env: Env, run: seq<Moment>)
    requires Talking(x, env) && IsRun(x, env, run) && TalkRun(x, env, run)
    ensures After(x, env, run).c.fs == x.c.fs
    decreases |run|
  {
    if run != [] {
      var slots, e := run[0].slots, run[0].e;
      var y := Step(x, env, slots, e).0;
      TalkEventKeepsFiles(x, env, slots, e);
      if e.Readable? {
        ReadTalks(x, env, slots, e.r, "", []);
      } else {
        WriteTalks(x, env, slots, e.m, "", []);
      }
      if Talking(y, env) {
        TalkKeepsFiles(y, env, run[1..]);
      } else {
        assert run[1..] == [];
      }
    }
  }

  lemma TalkEventKeepsFiles(x: Conn, env: Env, slots: Users.Slots, e: Event)
    requires Talking(x, env) && Enabled(x, e)
    ensures Step(x, env, slots, e).0.c.fs == x.c.fs
  {
    match e
    case Readable(r) =>
      ReceiveKeepsFiles(x.c, r, AUTH);
      FinishKeepsFiles(x, Receive(x.c, r, AUTH).0, Receive(x.c, r, AUTH).1, slots);
    case Writable(m) =>
      AuthStep(x.c, slots, m);
      var (c, after, to) := AuthProcess(x.c, slots, m);
      FinishKeepsFiles(x, c, to, after);
    case PipeReadable(k) =>
  }

  /** A whole connection: the greeting, then the conversation over what is received up to the login, then the
      sequential interpretation of everything behind PASS, whatever the chunks and, from the login on,
      whatever the partial sends. */
  lemma WholeConnection(fs: Files, env: Env, slots: Users.Slots, m: nat, talk: seq<Moment>, session: seq<Moment>)
    requires EnvOk(env) && m >= |GREETING|
    requires var x := OnWrite(NewConn(fs), env, slots, m).0;
             && IsRun(x, env, talk) && TalkRun(x, env, talk)
             && After(x, env, talk).current == Some(TRANSACTION)
             && IsRun(After(x, env, talk), env, session)
    ensures var x := OnWrite(NewConn(fs), env, slots, m).0;
            var said := Converse(Login("", NoErr, -1), Received(talk), TablesMet(x, env, talk));
            var want := Interpret(env, None, said.rest + Received(session));
            var y := After(After(x, env, talk), env, session);
            && said.to == TRANSACTION && y.c.wire <= GREETING + said.bytes + want.bytes
            && (!y.closed && y.c.interest == Read ==>
                  y.c.wire + y.c.out.content == GREETING + said.bytes + want.bytes && |y.c.out.content| <= 3)
            && (Committed(y) ==> y.c.wire + y.c.out.content == GREETING + said.bytes + want.bytes &&
                                 want.marks == Some(y.c.maildir.mails))
            && y.c.fs == if Committed(y) then Commit(fs, env.dir, MailsOf(want.marks)) else fs
  {
    var x := OnWrite(NewConn(fs), env, slots, m).0;
    GreetingOpens(fs, env, slots, m);
    EveryTalk(x, env, talk);
    TalkKeepsFiles(x, env, talk);
    assert "" + Received(talk) == Received(talk);
    ConverseFromIsConverse(Login("", NoErr, -1), Received(talk), TablesMet(x, env, talk));
    DeliversInterpretation(After(x, env, talk), env, session);
  }
}
