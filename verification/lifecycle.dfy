/** The life of one connection, from accept to close, under any events and any user table. */
module Lifecycle {
  import opened Text
  import opened Parsers
  import opened Maildrops
  import opened Replies
  import opened Sessions
  import opened Delivery
  import opened Machine
  import opened Schedules
  import Users

  // ---------- AUTH ----------

  ghost predicate AuthInv(c: Client) {
    && BuffersOk(c) && !c.multiline && c.filler == NoFiller && c.listed == 0
    && c.reader == Unregistered && c.maildir == UNLOADED && c.err != BadChar
    && (c.out.content == [] ==> c.finished && !c.parser.ended && c.interest != NoOp)
    && (c.out.content != [] ==> c.interest == Write)
    && (c.out.content == [] && c.interest == Read ==> c.inp.content == [] || !Live(c.parser))
  }

  // What AUTH hands over to TRANSACTION, before the arrival hook.
  ghost predicate HandOver(c: Client) {
    && BuffersOk(c) && c.finished && !c.multiline && c.filler == NoFiller && c.listed == 0
    && c.reader == Unregistered && c.maildir == UNLOADED && c.out.content == []
    && c.interest == (if c.inp.content != [] then Write else Read)
  }

  // A command of AUTH settles what comes next.
  lemma CommandDecides(l: Login, slots: Users.Slots, verb: AuthVerb, arg: string)
    ensures var r := AuthCommand(l, slots, verb, arg).0;
            && (r.next == DONE || r.next == AUTH || r.next == TRANSACTION || (r.next == ERROR_POP3 && l.err == BadChar))
            && (l.err != BadChar ==> r.err != BadChar)
  {
  }

  lemma ProcessCmdShape(c: Client, slots: Users.Slots)
    ensures var r := ProcessCmd(c, slots).0;
            && r == c.(parser := r.parser, next := r.next, err := r.err, user := r.user)
            && (r.next == DONE || r.next == AUTH || r.next == TRANSACTION || (r.next == ERROR_POP3 && c.err == BadChar))
            && (c.err != BadChar ==> r.err != BadChar)
  {
    CommandDecides(Login(c.user, c.err, c.next), slots, AuthVerbOf(c.parser.cmd), c.parser.arg);
  }

  // AUTH's replies, each at most as long as the capability list.
  lemma AuthMsgIsShort(c: Client, slots: Users.Slots, ok: bool)
    ensures 0 < |GenerateMsg(c, slots, ok)| <= MAX_REPLY
  {
  }

  lemma WriteMsgShape(c: Client, msg: string, m: nat)
    requires BuffersOk(c) && c.out.content == [] && |msg| <= MAX_REPLY
    ensures var r := WriteMsg(c, msg, m);
            && BuffersOk(r) && r == c.(out := r.out, wire := r.wire)
            && (r.out.content == [] <==> m >= |msg|) && r.out.content == Unsent(msg, m)
  {
    assert [] + msg == msg;
    SendSomeMoves(c.(out := c.out.Put(msg)), |msg|, m);
  }

  function Unsent(s: string, n: nat): string {
    s[Min(n, |s|)..]
  }

  lemma AuthStep(c: Client, slots: Users.Slots, m: nat)
    requires AuthInv(c) && c.interest == Write
    ensures var (r, _, to) := AuthProcess(c, slots, m);
            && (to == AUTH || to == TRANSACTION || to == DONE)
            && (to == AUTH ==> AuthInv(r))
            && (to == TRANSACTION ==> HandOver(r) && r.inp.content == Feed(Pop3, c.parser, c.inp.content).1)
            && r.fs == c.fs && r.maildir == c.maildir
  {
    if c.out.content == [] {
      ConsumeLeaves(c);
      var c1 := Consume(c);
      if c1.parser.ended {
        ProcessCmdShape(c1, slots);
        var (c2, slots2, ok) := ProcessCmd(c1, slots);
        AuthMsgIsShort(c2, slots2, ok);
        WriteMsgShape(c2, GenerateMsg(c2, slots2, ok), m);
      }
    }
  }

  lemma AuthReceives(c: Client, r: Recv)
    requires AuthInv(c) && c.interest == Read
    requires r.Got? ==> 0 < |r.bytes| <= RecvRoom(c) && AllLegal(r.bytes)
    ensures var (n, to) := Receive(c, r, AUTH);
            && (to == AUTH ==> AuthInv(n)) && (to == AUTH || to == DONE || to == ERROR_POP3)
            && n.fs == c.fs && n.user == c.user && n.maildir == c.maildir
  {
  }

  // ---------- the whole life ----------

  ghost predicate Ascending(s: seq<int>) {
    forall i, j :: 0 <= i < j < |s| ==> s[i] < s[j]
  }

  ghost predicate PhaseOk(x: Conn, env: Env) {
    match x.current
    case None => !x.closed && x.c == NewClient(x.c.fs)
    case Some(at) =>
      if x.closed then at == DONE || at == ERROR_POP3
      else (at == AUTH && AuthInv(x.c)) || (at == TRANSACTION && Inv(x.c, env)) || (at == UPDATE && InUpdate(x.c, env))
  }

  /** Never aborted: no NULL handler is called and jump is never given a state that does not exist. Each
      arrival hook has run once per state entered, in increasing order, the last for the current state. */
  ghost predicate ConnInv(x: Conn, env: Env) {
    && EnvOk(env) && !x.aborted && PhaseOk(x, env)
    && Ascending(x.entered)
    && (x.current.None? <==> x.entered == [])
    && (x.current.Some? ==> x.entered[|x.entered| - 1] == x.current.value)
  }

  // States later than the current one have not been entered.
  lemma NotYetEntered(x: Conn, state: int)
    requires Ascending(x.entered) && x.current.Some? && x.entered != []
    requires x.entered[|x.entered| - 1] == x.current.value <= state
    ensures state in x.entered <==> x.current == Some(state)
  {
  }

  lemma JumpAscends(x: Conn, to: int)
    requires Ascending(x.entered) && x.current.Some? && x.entered != []
    requires x.entered[|x.entered| - 1] == x.current.value && x.current.value <= to <= ERROR_POP3 && 0 <= to
    ensures var y := Jump(x, to);
            && !y.aborted == !x.aborted && y.current == Some(to)
            && Ascending(y.entered) && y.entered != [] && y.entered[|y.entered| - 1] == to
  {
  }

  /** A greeting taken whole leads to AUTH and READ; otherwise the connection is closed. */
  lemma GreetingStep(x: Conn, env: Env, slots: Users.Slots, m: nat)
    requires ConnInv(x, env) && x.current == None
    ensures var y := OnWrite(x, env, slots, m).0;
            && ConnInv(y, env) && y.c.fs == x.c.fs && y.c.maildir == x.c.maildir
            && (y.closed <==> m < |GREETING|)
            && (!y.closed ==> y.current == Some(AUTH) && y.c.interest == Read)
  {
    var y := HandleFirst(x);
    var (c, to) := WriteGreeting(y.c, m);
    JumpAscends(y.(c := c), to);
  }

  lemma AuthWriteStep(x: Conn, env: Env, slots: Users.Slots, m: nat)
    requires ConnInv(x, env) && x.current == Some(AUTH) && Enabled(x, Writable(m))
    ensures var y := OnWrite(x, env, slots, m).0;
            ConnInv(y, env) && (y.current == Some(TRANSACTION) ==> LoggedIn(y, env))
  {
    AuthStep(x.c, slots, m);
    var (c, slots', to) := AuthProcess(x.c, slots, m);
    AuthEnds(x, env, c, to, slots');
  }

  lemma AuthEnds(x: Conn, env: Env, c: Client, to: int, slots: Users.Slots)
    requires ConnInv(x, env) && x.current == Some(AUTH) && !x.closed
    requires (to == AUTH && AuthInv(c)) || (to == TRANSACTION && HandOver(c)) || to == DONE
    ensures var y := Finish(x.(c := c), to, slots).0;
            ConnInv(y, env) && (y.current == Some(TRANSACTION) ==> LoggedIn(y, env))
  {
    JumpAscends(x.(c := c), to);
    NotYetEntered(x, UPDATE);
    HandedOver(x, env, c, to, slots);
  }

  // The jump out of AUTH.
  lemma HandedOver(x: Conn, env: Env, c: Client, to: int, slots: Users.Slots)
    requires EnvOk(env) && x.current == Some(AUTH) && !x.closed && !x.aborted && UPDATE !in x.entered
    requires (to == AUTH && AuthInv(c)) || (to == TRANSACTION && HandOver(c)) || to == DONE
    ensures var y := Finish(x.(c := c), to, slots).0;
            && !y.aborted && PhaseOk(y, env) && (to == TRANSACTION ==> LoggedIn(y, env))
            && y.current == Jump(x.(c := c), to).current && y.entered == Jump(x.(c := c), to).entered
  {
  }

  // What a step leaves of the list of states entered.
  ghost predicate Climbed(x: Conn, y: Conn) {
    && x.current.Some? && y.current.Some? && x.current.value <= y.current.value
    && Ascending(y.entered) && x.entered <= y.entered && y.entered != []
    && y.entered[|y.entered| - 1] == y.current.value
    && (y.closed ==> x.closed || y.current == Some(DONE) || y.current == Some(ERROR_POP3))
  }

  lemma FinishClimbs(x: Conn, c: Client, to: int, slots: Users.Slots)
    requires Ascending(x.entered) && x.current.Some? && x.entered != []
    requires x.entered[|x.entered| - 1] == x.current.value && x.current.value <= to <= ERROR_POP3 && 0 <= to
    ensures Climbed(x, Finish(x.(c := c), to, slots).0)
  {
    JumpAscends(x.(c := c), to);
  }

  // A state entered, and the list that ends in it.
  ghost predicate At(x: Conn, state: int) {
    && x.current == Some(state) && GREETING_WRITE <= state <= ERROR_POP3 && !x.closed
    && Ascending(x.entered) && x.entered != [] && x.entered[|x.entered| - 1] == state
  }

  lemma TransClimbs(x: Conn, env: Env, slots: Users.Slots, m: nat)
    requires At(x, TRANSACTION) && Inv(x.c, env) && x.c.interest == Write
    ensures Climbed(x, OnWrite(x, env, slots, m).0)
  {
    TransGoesUp(x.c, env, m);
    var (c, to) := TransProcess(x.c, env, m);
    FinishClimbs(x, c, to, slots);
  }

  lemma UpdateClimbs(x: Conn, env: Env, slots: Users.Slots, m: nat)
    requires At(x, UPDATE) && IsNewDir(env.dir)
    ensures Climbed(x, OnWrite(x, env, slots, m).0)
  {
    FinishClimbs(x, UpdateProcess(x.c, env, m).0, DONE, slots);
  }

  lemma ReadClimbs(x: Conn, slots: Users.Slots, r: Recv)
    requires At(x, TRANSACTION)
    ensures Climbed(x, OnRead(x, slots, r).0)
  {
    var (c, to) := Receive(x.c, r, TRANSACTION);
    FinishClimbs(x, c, to, slots);
  }

  lemma EventAscends(x: Conn, env: Env, slots: Users.Slots, e: Event)
    requires InSession(x, env) && Enabled(x, e) && (At(x, TRANSACTION) || At(x, UPDATE))
    ensures Climbed(x, Step(x, env, slots, e).0)
  {
    match e
    case Writable(m) =>
      if x.current == Some(TRANSACTION) {
        TransClimbs(x, env, slots, m);
      } else {
        UpdateClimbs(x, env, slots, m);
      }
    case Readable(r) => ReadClimbs(x, slots, r);
    case PipeReadable(k) =>
  }

  lemma SessionPhaseStep(x: Conn, env: Env, slots: Users.Slots, e: Event)
    requires InSession(x, env) && Enabled(x, e) && (At(x, TRANSACTION) || At(x, UPDATE))
    ensures ConnInv(Step(x, env, slots, e).0, env)
  {
    EventConserves(x, env, slots, e, "");
    EventAscends(x, env, slots, e);
    StillSane(x, Step(x, env, slots, e).0, env);
  }

  lemma StillSane(x: Conn, y: Conn, env: Env)
    requires EnvOk(env) && Climbed(x, y) && !x.closed && !y.aborted && (!y.closed ==> InSession(y, env))
    ensures ConnInv(y, env)
  {
  }

  lemma TransGoesUp(c: Client, env: Env, m: nat)
    requires Inv(c, env) && c.interest == Write
    ensures TRANSACTION <= TransProcess(c, env, m).1 <= ERROR_POP3
  {
    TransStep(c, env, m, "");
  }

  lemma AuthReadStep(x: Conn, env: Env, slots: Users.Slots, r: Recv)
    requires ConnInv(x, env) && x.current == Some(AUTH) && Enabled(x, Readable(r))
    ensures ConnInv(OnRead(x, slots, r).0, env)
  {
    AuthReceives(x.c, r);
    var (c, to) := Receive(x.c, r, AUTH);
    JumpAscends(x.(c := c), to);
  }

  /** Every event of every run. */
  lemma LifeStep(x: Conn, env: Env, slots: Users.Slots, e: Event)
    requires ConnInv(x, env) && Enabled(x, e)
    ensures ConnInv(Step(x, env, slots, e).0, env)
    ensures x.current.Some? ==> x.current.value <= Step(x, env, slots, e).0.current.value
  {
    if x.current == None {
      GreetingStep(x, env, slots, e.m);
    } else if x.current == Some(AUTH) {
      if e.Writable? {
        AuthWriteStep(x, env, slots, e.m);
      } else {
        AuthReadStep(x, env, slots, e.r);
      }
    } else {
      NotYetEntered(x, UPDATE);
      SessionPhaseStep(x, env, slots, e);
    }
    EnteredGrows(x, env, slots, e);
    PhaseGrows(x, Step(x, env, slots, e).0, env);
  }

  lemma FinishGrows(x: Conn, c: Client, to: int, slots: Users.Slots)
    ensures x.entered <= Finish(x.(c := c), to, slots).0.entered
  {
  }

  lemma WriteGrows(x: Conn, env: Env, slots: Users.Slots, m: nat)
    requires IsNewDir(env.dir)
    ensures x.entered <= OnWrite(x, env, slots, m).0.entered
  {
    var y := HandleFirst(x);
    var at := y.current.value;
    if at == GREETING_WRITE {
      FinishGrows(y, WriteGreeting(y.c, m).0, WriteGreeting(y.c, m).1, slots);
    } else if at == AUTH {
      var (c, after, to) := AuthProcess(y.c, slots, m);
      FinishGrows(y, c, to, after);
    } else if at == TRANSACTION {
      FinishGrows(y, TransProcess(y.c, env, m).0, TransProcess(y.c, env, m).1, slots);
    } else if at == UPDATE {
      FinishGrows(y, UpdateProcess(y.c, env, m).0, UpdateProcess(y.c, env, m).1, slots);
    }
  }

  lemma ReadGrows(x: Conn, slots: Users.Slots, r: Recv)
    ensures x.entered <= OnRead(x, slots, r).0.entered
  {
    var y := HandleFirst(x);
    var (c, to) := Receive(y.c, r, y.current.value);
    FinishGrows(y, c, to, slots);
  }

  lemma EnteredGrows(x: Conn, env: Env, slots: Users.Slots, e: Event)
    requires IsNewDir(env.dir) && Enabled(x, e)
    ensures x.entered <= Step(x, env, slots, e).0.entered
  {
    match e
    case Writable(m) => WriteGrows(x, env, slots, m);
    case Readable(r) => ReadGrows(x, slots, r);
    case PipeReadable(k) =>
  }

  // The last state entered is the current one, and the list ascends.
  lemma PhaseGrows(x: Conn, y: Conn, env: Env)
    requires ConnInv(x, env) && ConnInv(y, env) && x.entered <= y.entered
    ensures x.current.Some? ==> y.current.Some? && x.current.value <= y.current.value
  {
    if x.current.Some? {
      assert y.entered[|x.entered| - 1] == x.current.value;
    }
  }

  lemma {:induction false} LifeHolds(x: Conn, env: Env, run: seq<Moment>)
    requires ConnInv(x, env) && IsRun(x, env, run)
    ensures ConnInv(After(x, env, run), env) && x.entered <= After(x, env, run).entered
    decreases |run|
  {
    if run != [] {
      var y := Step(x, env, run[0].slots, run[0].e).0;
      LifeStep(x, env, run[0].slots, run[0].e);
      EnteredGrows(x, env, run[0].slots, run[0].e);
      LifeHolds(y, env, run[1..]);
    }
  }

  /** From accept on, whatever happens: phases only go up, each arrival hook runs at most once, every
      event finds a handler, and jump never sees the -1 that stands for no decision. */
  lemma EveryConnectionIsSane(fs: Files, env: Env, run: seq<Moment>)
    requires EnvOk(env) && IsRun(NewConn(fs), env, run)
    ensures var y := After(NewConn(fs), env, run);
            && !y.aborted && Ascending(y.entered)
            && (y.current == Some(TRANSACTION) && !y.closed ==> Inv(y.c, env))
  {
    LifeHolds(NewConn(fs), env, run);
  }

  // ---------- AUTH's partial sends ----------

  /** An AUTH reply is delivered exactly when its one send takes it whole. */
  lemma AuthReplySentIff(c: Client, slots: Users.Slots, m: nat)
    requires AuthInv(c) && c.interest == Write && c.out.content == [] && Consume(c).parser.ended
    ensures var (c2, slots2, ok) := ProcessCmd(Consume(c), slots);
            var msg := GenerateMsg(c2, slots2, ok);
            AuthProcess(c, slots, m).0.out.content == Unsent(msg, m) &&
            (AuthProcess(c, slots, m).0.out.content == [] <==> m >= |msg|)
  {
    ConsumeLeaves(c);
    ProcessCmdShape(Consume(c), slots);
    var (c2, slots2, ok) := ProcessCmd(Consume(c), slots);
    AuthMsgIsShort(c2, slots2, ok);
    WriteMsgShape(c2, GenerateMsg(c2, slots2, ok), m);
  }

  /** Otherwise the connection spins: the test for unsent bytes only flips `finished`, no later event sends
      anything, and the connection is never closed. */
  lemma {:induction false} AuthSpins(x: Conn, env: Env, run: seq<Moment>)
    requires ConnInv(x, env) && x.current == Some(AUTH) && !x.closed && x.c.out.content != []
    requires IsRun(x, env, run)
    ensures var y := After(x, env, run);
            && y.current == Some(AUTH) && !y.closed && Enabled(y, Writable(1))
            && y.c.wire == x.c.wire && y.c.out == x.c.out && y.c.inp == x.c.inp && y.c.user == x.c.user
    decreases |run|
  {
    if run != [] {
      LifeStep(x, env, run[0].slots, run[0].e);
      AuthSpins(Step(x, env, run[0].slots, run[0].e).0, env, run[1..]);
    }
  }
}
