/** What a connection makes of the mails: the list over whole sessions, and the files over whole connections. */
module Commits {
  import opened Text
  import opened Maildrops
  import opened Sessions
  import opened Reference
  import opened Delivery
  import opened Answers
  import opened Machine
  import opened Schedules
  import opened Lifecycle
  import Users

  // ---------- the list ----------

  lemma ForwardKeepsMails(c: Client, env: Env, m: nat)
    requires Inv(c, env) && c.interest == Write && !(c.finished && !c.multiline)
    ensures TransProcess(c, env, m).0.maildir == c.maildir
  {
    if !c.finished {
      SendDataStep(c, env, m);
    } else {
      SendTerminatorStep(c, env, m);
    }
  }

  // A complete command other than QUIT leaves the list as the interpreter does.
  lemma ReplyKeepsMails(c: Client, env: Env, m: nat)
    requires Inv(c, env) && c.interest == Write && c.finished && !c.multiline
    requires Consume(c).parser.ended && VerbOf(Upper(Consume(c).parser.cmd)) != QuitV
    ensures var r := TransProcess(c, env, m).0;
            SameMails(env, BoxOf(c.maildir), BoxOf(r.maildir)) && DropOk(r.maildir)
  {
    ConsumeLeaves(c);
    var c1 := Consume(c);
    RequestAgrees(c1, env);
    var (c2, msg) := HandleRequest(c1, env);
    ReplyResult(c, env, m);
    RepliedKeeps(c2, env, msg, m);
    RespondKeepsMails(env, BoxOf(c.maildir), VerbOf(Upper(c1.parser.cmd)), c1.parser.arg);
  }

  lemma QuitKeepsMails(c: Client, env: Env, m: nat)
    requires Inv(c, env) && c.interest == Write && c.finished && !c.multiline
    requires Consume(c).parser.ended && VerbOf(Upper(Consume(c).parser.cmd)) == QuitV
    ensures TransProcess(c, env, m).0.maildir == c.maildir
  {
    ConsumeLeaves(c);
    QuitAgrees(Consume(c), env);
  }

  lemma TransKeepsMails(c: Client, env: Env, m: nat)
    requires Inv(c, env) && c.interest == Write
    ensures var r := TransProcess(c, env, m).0;
            SameMails(env, BoxOf(c.maildir), BoxOf(r.maildir)) && DropOk(r.maildir)
  {
    if !(c.finished && !c.multiline) {
      ForwardKeepsMails(c, env, m);
    } else if !Consume(c).parser.ended {
      ConsumeLeaves(c);
      WaitResult(c, env, m);
    } else if VerbOf(Upper(Consume(c).parser.cmd)) != QuitV {
      ReplyKeepsMails(c, env, m);
    } else {
      QuitKeepsMails(c, env, m);
    }
  }

  lemma FinishKeepsMails(x: Conn, c: Client, to: int, slots: Users.Slots)
    ensures Finish(x.(c := c), to, slots).0.c.maildir == c.maildir
  {
  }

  lemma ReceiveKeepsMails(c: Client, r: Recv, stay: int)
    ensures Receive(c, r, stay).0.maildir == c.maildir
  {
  }

  lemma EventKeepsMails(x: Conn, env: Env, slots: Users.Slots, e: Event)
    requires InSession(x, env) && Enabled(x, e)
    ensures var y := Step(x, env, slots, e).0;
            SameMails(env, BoxOf(x.c.maildir), BoxOf(y.c.maildir)) && DropOk(y.c.maildir)
  {
    match e
    case Readable(r) =>
      ReceiveKeepsMails(x.c, r, TRANSACTION);
      FinishKeepsMails(x, Receive(x.c, r, TRANSACTION).0, Receive(x.c, r, TRANSACTION).1, slots);
    case Writable(m) =>
      if x.current == Some(TRANSACTION) {
        TransKeepsMails(x.c, env, m);
        FinishKeepsMails(x, TransProcess(x.c, env, m).0, TransProcess(x.c, env, m).1, slots);
      } else {
        UpdateResult(x, env, slots, m);
        WriteMsgMoves(x.c.(fs := Commit(x.c.fs, env.dir, x.c.maildir.mails)), Farewell(x.c.maildir), m);
      }
    case PipeReadable(k) => PipeStep(x.c, env, k);
  }

  /** Over every run of a session the mails, their order and their sizes never change once loaded, the cached count is
      the number of deletion marks, and the two numbers STAT prints describe the messages not marked. */
  lemma {:induction false} BookkeepingHolds(x: Conn, env: Env, run: seq<Moment>)
    requires InSession(x, env) && IsRun(x, env, run)
    ensures var d := After(x, env, run).c.maildir;
            && SameMails(env, BoxOf(x.c.maildir), BoxOf(d))
            && d.ndel == CountDel(d.mails)
            && KeptCount(d) == |Kept(d.mails)| && KeptSize(d) == SizeSum(Kept(d.mails))
    decreases |run|
  {
    if run == [] {
      TotalsDescribeKept(x.c.maildir);
    } else {
      var y := Step(x, env, run[0].slots, run[0].e).0;
      EventKeepsMails(x, env, run[0].slots, run[0].e);
      EventConserves(x, env, run[0].slots, run[0].e, "");
      if y.closed {
        assert run[1..] == [];
        TotalsDescribeKept(y.c.maildir);
      } else {
        BookkeepingHolds(y, env, run[1..]);
        SameMailsTogether(env, BoxOf(x.c.maildir), BoxOf(y.c.maildir), BoxOf(After(x, env, run).c.maildir));
      }
    }
  }

  // ---------- the files, from accept on ----------

  /** The files of a connection accepted over `fs`, and the list it may have loaded. */
  ghost predicate FilesOk(x: Conn, env: Env, fs: Files) {
    && ConnInv(x, env)
    && SameMails(env, None, BoxOf(x.c.maildir)) && DropOk(x.c.maildir)
    && x.c.fs == if Committed(x) then Commit(fs, env.dir, x.c.maildir.mails) else fs
  }

  lemma GreetingKeepsFiles(x: Conn, env: Env, fs: Files, slots: Users.Slots, m: nat)
    requires FilesOk(x, env, fs) && x.current == None
    ensures FilesOk(OnWrite(x, env, slots, m).0, env, fs)
  {
    GreetingStep(x, env, slots, m);
  }

  lemma AuthReadKeepsFiles(x: Conn, env: Env, fs: Files, slots: Users.Slots, r: Recv)
    requires FilesOk(x, env, fs) && x.current == Some(AUTH) && Enabled(x, Readable(r))
    ensures FilesOk(OnRead(x, slots, r).0, env, fs)
  {
    AuthReadStep(x, env, slots, r);
    ReceiveKeepsMails(x.c, r, AUTH);
    ReceiveKeepsFiles(x.c, r, AUTH);
    LeavesUncommitted(x, Receive(x.c, r, AUTH).0, Receive(x.c, r, AUTH).1, slots);
  }

  lemma AuthWriteKeepsFiles(x: Conn, env: Env, fs: Files, slots: Users.Slots, m: nat)
    requires FilesOk(x, env, fs) && x.current == Some(AUTH) && Enabled(x, Writable(m))
    ensures FilesOk(OnWrite(x, env, slots, m).0, env, fs)
  {
    AuthWriteStep(x, env, slots, m);
    AuthStep(x.c, slots, m);
    var (c, after, to) := AuthProcess(x.c, slots, m);
    LeavesUncommitted(x, c, to, after);
  }

  // A jump out of AUTH that is not to UPDATE.
  lemma LeavesUncommitted(x: Conn, c: Client, to: int, slots: Users.Slots)
    requires Ascending(x.entered) && x.current == Some(AUTH) && x.entered != [] && to != UPDATE
    requires x.entered[|x.entered| - 1] == AUTH
    ensures var y := Finish(x.(c := c), to, slots).0;
            !Committed(y) && y.c.fs == c.fs && y.c.maildir == c.maildir
  {
    NotYetEntered(x, UPDATE);
  }

  lemma SessionKeepsFiles(x: Conn, env: Env, fs: Files, slots: Users.Slots, e: Event)
    requires FilesOk(x, env, fs) && Enabled(x, e) && (x.current == Some(TRANSACTION) || x.current == Some(UPDATE))
    ensures FilesOk(Step(x, env, slots, e).0, env, fs)
  {
    NotYetEntered(x, UPDATE);
    LifeStep(x, env, slots, e);
    FilesWait(x, env, slots, e);
    EventKeepsMails(x, env, slots, e);
    SameMailsTogether(env, None, BoxOf(x.c.maildir), BoxOf(Step(x, env, slots, e).0.c.maildir));
    if x.current == Some(UPDATE) && e.Writable? {
      UpdateKeepsList(x, env, slots, e.m);
    }
  }

  lemma UpdateKeepsList(x: Conn, env: Env, slots: Users.Slots, m: nat)
    requires InSession(x, env) && x.current == Some(UPDATE)
    ensures OnWrite(x, env, slots, m).0.c.maildir == x.c.maildir
  {
    UpdateResult(x, env, slots, m);
    WriteMsgMoves(x.c.(fs := Commit(x.c.fs, env.dir, x.c.maildir.mails)), Farewell(x.c.maildir), m);
  }

  lemma FilesStep(x: Conn, env: Env, fs: Files, slots: Users.Slots, e: Event)
    requires FilesOk(x, env, fs) && Enabled(x, e)
    ensures FilesOk(Step(x, env, slots, e).0, env, fs)
  {
    if x.current == None {
      GreetingKeepsFiles(x, env, fs, slots, e.m);
    } else if x.current == Some(AUTH) {
      match e
      case Readable(r) => AuthReadKeepsFiles(x, env, fs, slots, r);
      case Writable(m) => AuthWriteKeepsFiles(x, env, fs, slots, m);
    } else {
      SessionKeepsFiles(x, env, fs, slots, e);
    }
  }

  lemma {:induction false} FilesHold(x: Conn, env: Env, fs: Files, run: seq<Moment>)
    requires FilesOk(x, env, fs) && IsRun(x, env, run)
    ensures FilesOk(After(x, env, run), env, fs)
    decreases |run|
  {
    if run != [] {
      FilesStep(x, env, fs, run[0].slots, run[0].e);
      FilesHold(Step(x, env, run[0].slots, run[0].e).0, env, fs, run[1..]);
    }
  }

  // ---------- what the marks do to the files ----------

  /** From accept on, over every run with any partial sends: the files change exactly when UPDATE closes the
      connection, and then every mail of `new/` has gone where its marks say and every other file is as it was. A
      connection that ends in any other way, in whatever phase, has changed nothing. */
  lemma CommitsExactlyTheMarks(fs: Files, env: Env, run: seq<Moment>)
    requires EnvOk(env) && IsRun(NewConn(fs), env, run)
    requires env.listing.Entries? ==> Storable(fs, env.dir, NewMails(env.listing.entries))
    ensures var y := After(NewConn(fs), env, run);
            var mails := y.c.maildir.mails;
            && (Committed(y) ==> CarriedOut(fs, y.c.fs, env.dir, mails))
            && (!Committed(y) ==> y.c.fs == fs)
            && (mails != [] ==> env.listing.Entries? && SameFiles(NewMails(env.listing.entries), mails))
  {
    FilesHold(NewConn(fs), env, fs, run);
    var y := After(NewConn(fs), env, run);
    var mails := y.c.maildir.mails;
    if mails == [] {
      CommitCarriesOut(fs, env.dir, []);
    } else {
      StorableIsCommittable(fs, env.dir, NewMails(env.listing.entries), mails);
      CommitCarriesOut(fs, env.dir, mails);
    }
  }
}
