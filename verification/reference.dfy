/** What a POP3 session owes its client, with no buffers, no chunks, no callbacks and no counters kept on the
    side: a sequential interpreter that reads the received bytes line by line (section 3 of RFC 1939,
    pipelining as in section 6.6 of RFC 2449). */
module Reference {
  import opened Text
  import opened Parsers
  import opened Maildrops
  import opened Replies
  import opened Sessions

  /** The maildrop, absent until a command first needs it. */
  type Box = Option<seq<Mail>>

  function Open(env: Env, box: Box): Box {
    match box
    case Some(mails) => box
    case None =>
      match env.listing
      case Unreadable => None
      case Entries(entries) => Some(NewMails(entries))
  }

  function MailsOf(box: Box): seq<Mail> {
    match box
    case Some(mails) => mails
    case None => []
  }

  datatype Response = Response(text: string, box: Box, quit: bool)

  /** One line for every message that is not marked, with its original number. */
  function ScanLines(mails: seq<Mail>, i: nat): string
    decreases |mails| - i
  {
    if i >= |mails| then ""
    else (if mails[i].del then "" else ScanLine(i + 1, mails[i].file.size)) + ScanLines(mails, i + 1)
  }

  /** What an external program's output is completed with. */
  function Suffix(env: Env): string {
    if env.external then "\r\n" else ""
  }

  /** A message number, or why it is refused. */
  function Pick(mails: seq<Mail>, arg: string): Option<string> {
    NumberError(Atoi(FirstToken(arg)), |mails|)
  }

  function RespondOn(env: Env, mails: seq<Mail>, verb: Verb, arg: string): Response {
    var kept, n := Kept(mails), Atoi(FirstToken(arg));
    match verb
    case StatV => Response(StatLine(|kept|, SizeSum(kept)), Some(mails), false)
    case RsetV => Response(ResetLine(|mails|, SizeSum(mails)), Some(ClearMarks(mails)), false)
    case ListV =>
      if arg == "" then
        Response(ListHeader(|kept|, SizeSum(kept)) + ScanLines(mails, 0) + TERMINATOR, Some(mails), false)
      else (match Pick(mails, arg)
        case Some(refusal) => Response(refusal, Some(mails), false)
        case None =>
          Response(if mails[n - 1].del then IsDeleted(n) else ListOne(n, mails[n - 1].file.size), Some(mails), false))
    case RetrV =>
      (match Pick(mails, arg)
        case Some(refusal) => Response(refusal, Some(mails), false)
        case None =>
          var m := mails[n - 1];
          Response(RetrHeader(m.file.size) + m.file.output + Suffix(env) + TERMINATOR,
                   Some(mails[n - 1 := m.(read := true)]), false))
    case _ =>
      if arg == "" then Response(MustGive(|mails|), Some(mails), false)
      else (match Pick(mails, arg)
        case Some(refusal) => Response(refusal, Some(mails), false)
        case None =>
          var m := mails[n - 1];
          Response(if m.del then AlreadyDeleted(n) else Deleted(n), Some(mails[n - 1 := m.(del := true)]), false))
  }

  function Respond(env: Env, box: Box, verb: Verb, arg: string): Response {
    match verb
    case NoopV => Response(NOOP, box, false)
    case CapaV => Response(CAPABILITIES, box, false)
    case NoVerb => Response(INVALID_COMMAND, box, false)
    case QuitV =>
      var mails := MailsOf(box);
      Response(SignOff(CountUnmarked(mails), |mails| - CountRead(mails), CountDel(mails), |mails|), box, true)
    case _ =>
      match Open(env, box)
      case None => Response(SERVER_ERROR, box, false)
      case Some(mails) => RespondOn(env, mails, verb, arg)
  }

  /** Everything the session sends and, once QUIT is read, the mails with the marks that UPDATE is to commit. */
  datatype Outcome = Outcome(bytes: string, marks: Box)

  /** Answers every complete line up to QUIT. A line with over 40 argument bytes is never complete. */
  function Interpret(env: Env, box: Box, stream: string): Outcome
    decreases |stream|
  {
    if !Complete(stream) || !Fits(Body(stream)) then Outcome("", None)
    else
      var body := Body(stream);
      var r := Respond(env, box, VerbOf(Upper(CmdOf(Pop3, body))), ArgOf(body));
      if r.quit then Outcome(r.text, Some(MailsOf(r.box)))
      else
        var later := Interpret(env, r.box, stream[LineLen(stream)..]);
        Outcome(r.text + later.bytes, later.marks)
  }

  /** The same from a parser that already holds the start of a line. */
  function Resume(env: Env, box: Box, p: P, stream: string): Outcome
    requires !p.ended
    decreases |stream|
  {
    var (q, rest) := Feed(Pop3, p, stream);
    if !q.ended then Outcome("", None)
    else
      var r := Respond(env, box, VerbOf(Upper(q.cmd)), q.arg);
      if r.quit then Outcome(r.text, Some(MailsOf(r.box)))
      else
        var later := Resume(env, r.box, INIT_P, rest);
        Outcome(r.text + later.bytes, later.marks)
  }

  /** Reading line by line and running the resumable parser are the same. */
  lemma {:induction false} ResumeIsInterpret(env: Env, box: Box, stream: string)
    ensures Resume(env, box, INIT_P, stream) == Interpret(env, box, stream)
    decreases |stream|
  {
    FeedIsGrammar(Pop3, stream);
    var (q, rest) := Feed(Pop3, INIT_P, stream);
    if q.ended {
      var r := Respond(env, box, VerbOf(Upper(q.cmd)), q.arg);
      ResumeIsInterpret(env, r.box, rest);
    }
  }

  // The parser stops in the same state when more bytes follow.
  lemma ResumeSplit(env: Env, box: Box, p: P, a: string, b: string)
    requires !p.ended
    ensures var (q, rest) := Feed(Pop3, p, a);
            && (!q.ended ==> Resume(env, box, p, a + b) == Resume(env, box, q, rest + b))
            && (q.ended ==>
                  var r := Respond(env, box, VerbOf(Upper(q.cmd)), q.arg);
                  Resume(env, box, p, a + b) ==
                  if r.quit then Outcome(r.text, Some(MailsOf(r.box)))
                  else var later := Resume(env, r.box, INIT_P, rest + b);
                       Outcome(r.text + later.bytes, later.marks))
  {
    FeedSplit(Pop3, p, a, b);
    var (q, rest) := Feed(Pop3, p, a);
    if Live(q) {
      assert rest + b == b;
    }
  }

  // ---------- the mails themselves never change ----------

  /** Only marks differ between the list before and after: the same mails, in the same order. */
  ghost predicate SameMails(env: Env, before: Box, after: Box) {
    && (before.Some? ==> after.Some? && SameFiles(before.value, after.value))
    && (before.None? && after.Some? ==> Open(env, None).Some? && SameFiles(Open(env, None).value, after.value))
  }

  lemma RespondOnKeepsMails(env: Env, mails: seq<Mail>, verb: Verb, arg: string)
    ensures var r := RespondOn(env, mails, verb, arg); r.box.Some? && SameFiles(mails, r.box.value)
  {
  }

  lemma RespondKeepsMails(env: Env, box: Box, verb: Verb, arg: string)
    ensures SameMails(env, box, Respond(env, box, verb, arg).box)
  {
    if Open(env, box).Some? {
      RespondOnKeepsMails(env, Open(env, box).value, verb, arg);
    }
  }

  lemma SameMailsTogether(env: Env, a: Box, b: Box, c: Box)
    requires SameMails(env, a, b) && SameMails(env, b, c)
    ensures SameMails(env, a, c)
  {
  }

  /** What QUIT commits is the list of `new/` with marks, or nothing if no command has needed the list. */
  lemma {:induction false} InterpretKeepsMails(env: Env, box: Box, stream: string)
    ensures var marks := Interpret(env, box, stream).marks;
            marks.Some? && (box.Some? || marks.value != []) ==> SameMails(env, box, marks)
    decreases |stream|
  {
    if Complete(stream) && Fits(Body(stream)) {
      var body := Body(stream);
      var verb, arg := VerbOf(Upper(CmdOf(Pop3, body))), ArgOf(body);
      var r := Respond(env, box, verb, arg);
      RespondKeepsMails(env, box, verb, arg);
      if !r.quit {
        InterpretKeepsMails(env, r.box, stream[LineLen(stream)..]);
      }
    }
  }
}
