/** Each command handler of the TRANSACTION state answers as the sequential interpreter does: the text it
    puts in the buffer followed by what its callback will add. */
module Answers {
  import opened Text
  import opened Maildrops
  import opened Replies
  import opened Sessions
  import opened Reference
  import opened Delivery

  ghost predicate Idle(c: Client) {
    && c.finished && !c.multiline && c.filler == NoFiller && c.listed == 0
    && c.reader == Unregistered && c.interest == Write
  }

  // The three ways a handler leaves the connection.
  ghost predicate ReplyShape(c: Client) {
    || Idle(c)
    || (!c.finished && c.multiline && c.filler == ListAllNew && c.listed == 0 && c.reader == Unregistered &&
        c.interest == Write && c.maildir.loaded)
    || (!c.finished && c.multiline && c.filler == LoadMore && c.listed == 0 && c.interest == NoOp &&
        c.reader.Registered? && c.reader.interest == Read)
  }

  ghost predicate Untouched(c: Client, r: Client) {
    c.wire == r.wire && c.out == r.out && c.inp == r.inp && c.fs == r.fs && c.user == r.user
  }

  /** The handler's result is the interpreter's response. */
  ghost predicate Agrees(c: Client, env: Env, r: Client, msg: string, want: Response) {
    && Untouched(c, r) && ReplyShape(r) && DropOk(r.maildir)
    && msg != "" && |msg| <= MAX_REPLY
    && r.next == TRANSACTION && !want.quit
    && want.text == msg + Owed(r, env)
    && want.box == BoxOf(r.maildir)
  }

  // Before a command runs.
  ghost predicate Ready(c: Client, env: Env) {
    EnvOk(env) && DropOk(c.maildir) && Idle(c) && c.next == TRANSACTION
  }

  lemma OpenIsLoad(c: Client, env: Env)
    requires EnvOk(env) && DropOk(c.maildir)
    ensures var l := Load(c.maildir, env.listing);
            && (l.None? <==> Open(env, BoxOf(c.maildir)).None?)
            && (l.Some? ==> Open(env, BoxOf(c.maildir)) == Some(l.value.mails) && l.value.loaded && DropOk(l.value))
  {
    if Load(c.maildir, env.listing).Some? {
      LoadKeeps(c.maildir, env.listing);
    }
  }

  // A plain reply: nothing is owed after it.
  lemma PlainAgrees(c: Client, env: Env, r: Client, msg: string, want: Response)
    requires Untouched(c, r) && Idle(r) && DropOk(r.maildir) && r.next == TRANSACTION
    requires msg != "" && |msg| <= MAX_REPLY && want == Response(msg, BoxOf(r.maildir), false)
    ensures Agrees(c, env, r, msg, want)
  {
    assert msg + "" == msg;
  }

  lemma LenIsShort(d: Drop)
    requires DropOk(d)
    ensures |NotUnderstood(|d.mails|)| <= MAX_REPLY && |NoSuchMessage(|d.mails|)| <= MAX_REPLY
    ensures |MustGive(|d.mails|)| <= MAX_REPLY
  {
    NumbersAreShort(|d.mails|, 0);
  }

  // The maildrop cannot be opened.
  lemma UnopenedAgrees(c: Client, env: Env, verb: Verb)
    requires Ready(c, env) && Load(c.maildir, env.listing).None?
    requires verb in {StatV, ListV, RetrV, DeleV, RsetV}
    ensures Agrees(c, env, c, SERVER_ERROR, Respond(env, BoxOf(c.maildir), verb, c.parser.arg))
  {
    OpenIsLoad(c, env);
    PlainAgrees(c, env, c, SERVER_ERROR, Response(SERVER_ERROR, BoxOf(c.maildir), false));
  }

  // The maildrop is `d` once opened.
  ghost predicate Opened(c: Client, env: Env, d: Drop) {
    Ready(c, env) && Load(c.maildir, env.listing) == Some(d) && d.loaded && DropOk(d)
  }

  /** The printed totals do not wrap, and describe the messages that are kept. */
  lemma TotalsDescribeKept(d: Drop)
    requires DropOk(d)
    ensures KeptCount(d) == |Kept(d.mails)| && KeptSize(d) == SizeSum(Kept(d.mails))
    ensures U64(SizeSum(d.mails)) == SizeSum(d.mails) < 0x1_0000_0000_0000_0000
    ensures SizeSum(Kept(d.mails)) < 0x1_0000_0000_0000_0000
    ensures |Kept(d.mails)| < 0x1_0000_0000
  {
    KeptTotals(d.mails);
    SizeSumBound(d.mails);
    assert SizeSum(d.mails) <= INT_LIMIT * INT_LIMIT;
  }

  lemma StatOn(c: Client, env: Env, d: Drop)
    requires Opened(c, env, d)
    ensures var (r, msg) := CmdStat(c, env); Agrees(c, env, r, msg, RespondOn(env, d.mails, StatV, c.parser.arg))
  {
    TotalsDescribeKept(d);
    TotalsAreShort(KeptCount(d), KeptSize(d));
    var (r, msg) := CmdStat(c, env);
    PlainAgrees(c, env, r, msg, RespondOn(env, d.mails, StatV, c.parser.arg));
  }

  lemma ResetText(d: Drop)
    requires DropOk(d)
    ensures U64(SizeSum(d.mails)) == SizeSum(d.mails)
    ensures 0 < |ResetLine(|d.mails|, SizeSum(d.mails))| <= MAX_REPLY
  {
    TotalsDescribeKept(d);
    TotalsAreShort(|d.mails|, SizeSum(d.mails));
  }

  lemma RsetOn(c: Client, env: Env, d: Drop)
    requires Opened(c, env, d)
    ensures var (r, msg) := CmdRset(c, env); Agrees(c, env, r, msg, RespondOn(env, d.mails, RsetV, c.parser.arg))
  {
    ResetKeeps(d);
    ResetText(d);
    var (r, msg) := CmdRset(c, env);
    PlainAgrees(c, env, r, msg, RespondOn(env, d.mails, RsetV, c.parser.arg));
  }

  lemma ListAllOn(c: Client, env: Env, d: Drop)
    requires Opened(c, env, d) && c.parser.arg == ""
    ensures var (r, msg) := CmdList(c, env); Agrees(c, env, r, msg, RespondOn(env, d.mails, ListV, c.parser.arg))
  {
    TotalsDescribeKept(d);
    TotalsAreShort(KeptCount(d), KeptSize(d));
    Assoc(ListHeader(KeptCount(d), KeptSize(d)), ScanLines(d.mails, 0), TERMINATOR);
  }

  lemma ListOneOn(c: Client, env: Env, d: Drop)
    requires Opened(c, env, d) && c.parser.arg != ""
    ensures var (r, msg) := CmdList(c, env); Agrees(c, env, r, msg, RespondOn(env, d.mails, ListV, c.parser.arg))
  {
    LenIsShort(d);
    var n := Atoi(FirstToken(c.parser.arg));
    if NumberError(n, |d.mails|).None? {
      NumbersAreShort(n, d.mails[n - 1].file.size);
    }
    var (r, msg) := CmdList(c, env);
    PlainAgrees(c, env, r, msg, RespondOn(env, d.mails, ListV, c.parser.arg));
  }

  // RETR of a message that exists: the header now, the rest from the pipe.
  lemma RetrMailOn(c: Client, env: Env, d: Drop, n: nat)
    requires Opened(c, env, d) && n == Atoi(FirstToken(c.parser.arg)) && NumberError(n, |d.mails|).None?
    ensures var (r, msg) := CmdRetr(c, env); Agrees(c, env, r, msg, RespondOn(env, d.mails, RetrV, c.parser.arg))
  {
    var f := d.mails[n - 1].file;
    SetReadKeeps(d, n - 1);
    NumbersAreShort(f.size, 0);
    Assoc(RetrHeader(f.size), f.output, Suffix(env));
    Assoc(RetrHeader(f.size), f.output + Suffix(env), TERMINATOR);
  }

  lemma RetrOn(c: Client, env: Env, d: Drop)
    requires Opened(c, env, d)
    ensures var (r, msg) := CmdRetr(c, env); Agrees(c, env, r, msg, RespondOn(env, d.mails, RetrV, c.parser.arg))
  {
    var n := Atoi(FirstToken(c.parser.arg));
    if NumberError(n, |d.mails|).Some? {
      LenIsShort(d);
      var (r, msg) := CmdRetr(c, env);
      PlainAgrees(c, env, r, msg, RespondOn(env, d.mails, RetrV, c.parser.arg));
    } else {
      RetrMailOn(c, env, d, n);
    }
  }

  lemma DeleOn(c: Client, env: Env, d: Drop)
    requires Opened(c, env, d)
    ensures var (r, msg) := CmdDele(c, env); Agrees(c, env, r, msg, RespondOn(env, d.mails, DeleV, c.parser.arg))
  {
    LenIsShort(d);
    var n := Atoi(FirstToken(c.parser.arg));
    if c.parser.arg != "" && NumberError(n, |d.mails|).None? {
      SetDelKeeps(d, n - 1, true);
      NumbersAreShort(n, 0);
      assert d.mails[n - 1].del ==> d.mails[n - 1 := d.mails[n - 1].(del := true)] == d.mails;
    }
    var (r, msg) := CmdDele(c, env);
    PlainAgrees(c, env, r, msg, RespondOn(env, d.mails, DeleV, c.parser.arg));
  }

  lemma OpenedAgrees(c: Client, env: Env, d: Drop, verb: Verb)
    requires Opened(c, env, d) && verb in {StatV, ListV, RetrV, DeleV, RsetV}
    ensures var (r, msg) := RunVerb(c, env, verb);
            Agrees(c, env, r, msg, Respond(env, BoxOf(c.maildir), verb, c.parser.arg))
  {
    OpenIsLoad(c, env);
    match verb
    case StatV => StatOn(c, env, d);
    case ListV => if c.parser.arg == "" { ListAllOn(c, env, d); } else { ListOneOn(c, env, d); }
    case RetrV => RetrOn(c, env, d);
    case DeleV => DeleOn(c, env, d);
    case RsetV => RsetOn(c, env, d);
  }

  /** Every command but QUIT. */
  lemma RequestAgrees(c: Client, env: Env)
    requires EnvOk(env) && DropOk(c.maildir) && Idle(c) && Upper(c.parser.cmd) != "QUIT"
    ensures var (r, msg) := HandleRequest(c, env);
            Agrees(c, env, r, msg, Respond(env, BoxOf(c.maildir), VerbOf(Upper(c.parser.cmd)), c.parser.arg))
  {
    var verb := VerbOf(Upper(c.parser.cmd));
    var c1 := c.(parser := c.parser.(cmd := Upper(c.parser.cmd)), next := TRANSACTION);
    OpenIsLoad(c1, env);
    if verb == NoopV || verb == CapaV || verb == NoVerb {
      var (r, msg) := HandleRequest(c, env);
      PlainAgrees(c1, env, r, msg, Response(msg, BoxOf(c.maildir), false));
    } else {
      match Load(c.maildir, env.listing)
      case None => UnopenedAgrees(c1, env, verb);
      case Some(d) => OpenedAgrees(c1, env, d, verb);
    }
  }

  // UPDATE's unsigned differences do not wrap.
  lemma FarewellCounts(d: Drop)
    requires DropOk(d)
    ensures U32(|d.mails| - d.ndel - CountRead(d.mails)) == CountUnmarked(d.mails)
    ensures U32(|d.mails| - CountRead(d.mails)) == |d.mails| - CountRead(d.mails)
  {
    LeftInNew(d.mails);
  }

  lemma FarewellText(d: Drop)
    requires DropOk(d)
    ensures Farewell(d) == SignOff(CountUnmarked(d.mails), |d.mails| - CountRead(d.mails), CountDel(d.mails), |d.mails|)
  {
    FarewellCounts(d);
  }

  lemma OnlyQuitMoves(c: Client, env: Env, verb: Verb)
    ensures RunVerb(c, env, verb).0.next == if verb == QuitV then UPDATE else c.next
  {
  }

  /** UPDATE is what follows QUIT, and only QUIT. */
  lemma OnlyQuitUpdates(c: Client, env: Env)
    ensures HandleRequest(c, env).0.next == if Upper(c.parser.cmd) == "QUIT" then UPDATE else TRANSACTION
  {
    var cmd := Upper(c.parser.cmd);
    OnlyQuitMoves(c.(parser := c.parser.(cmd := cmd), next := TRANSACTION), env, VerbOf(cmd));
  }

  /** QUIT says nothing yet; UPDATE will. */
  lemma QuitAgrees(c: Client, env: Env)
    requires Upper(c.parser.cmd) == "QUIT"
    ensures HandleRequest(c, env) == (c.(parser := c.parser.(cmd := Upper(c.parser.cmd)), next := UPDATE), "")
  {
  }

  lemma RespondToQuit(env: Env, box: Box, arg: string)
    ensures var mails := MailsOf(box);
            Respond(env, box, QuitV, arg) ==
            Response(SignOff(CountUnmarked(mails), |mails| - CountRead(mails), CountDel(mails), |mails|), box, true)
  {
  }

  lemma FarewellAgrees(env: Env, d: Drop, arg: string)
    requires DropOk(d)
    ensures var want := Respond(env, BoxOf(d), QuitV, arg);
            want.quit && MailsOf(want.box) == d.mails && want.text == Farewell(d)
  {
    RespondToQuit(env, BoxOf(d), arg);
    FarewellText(d);
  }
}
