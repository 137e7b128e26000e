/** The session in the client's own terms: what each line it can send does, and the bytes that answer it. Nothing
    here names the functions that decide it; the lines and the replies are spelled out. */
module Laws {
  import opened Text
  import opened Parsers
  import opened Lines
  import opened Maildrops
  import opened Replies
  import opened Sessions
  import opened Reference
  import opened Delivery

  // ---------- words and numbers ----------

  /** `w` is `name`, a word of capitals, in any mixture of upper and lower case. */
  predicate Spells(w: string, name: string) {
    |w| == |name| &&
    forall i :: 0 <= i < |w| ==> 'A' <= name[i] <= 'Z' && (w[i] == name[i] || w[i] as int == name[i] as int + 32)
  }

  lemma SpelledWord(w: string, name: string)
    requires Spells(w, name) && |name| <= 5
    ensures Upper(w) == name && IsWord(Pop3, w)
  {
    forall i | 0 <= i < |w| ensures UpperChar(w[i]) == name[i] && CmdClass(Pop3)(w[i]) {
    }
    assert Upper(w) == name;
  }

  lemma Cases()
    ensures Spells("stat", "STAT") && Spells("Stat", "STAT") && Spells("STAT", "STAT")
  {
  }

  /** A command name is cut to its first five letters. */
  lemma FirstFiveLetters(w: string)
    requires forall i :: 0 <= i < |w| ==> 'a' <= w[i] <= 'z' || 'A' <= w[i] <= 'Z'
    ensures CmdOf(Pop3, w) == if |w| <= 5 then w else w[..5]
  {
    assert forall i :: 0 <= i < |w| ==> w[i] != ' ';
    assert Head(w) == w;
    KeepAll(w, IsAlpha);
  }

  /** A last character that is no letter is dropped from the name. */
  lemma OtherCharactersAreDropped(w: string, c: char)
    requires forall i :: 0 <= i < |w| ==> w[i] != ' '
    requires !('a' <= c <= 'z' || 'A' <= c <= 'Z')
    ensures CmdOf(Pop3, w + [c]) == CmdOf(Pop3, w)
  {
    HeadSnoc(w, c);
    KeepSnoc(Head(w), c, IsAlpha);
  }

  // A message number as an argument.
  lemma NumberArgument(n: nat)
    requires n < INT_LIMIT
    ensures Printable(Dec(n)) && 0 < |Dec(n)| <= 40 && Atoi(FirstToken(Dec(n))) == n
  {
    DecIsDigits(n);
    DecLength(n, 10);
    ShortNumbers(n, 0);
    assert forall i :: 0 <= i < |Dec(n)| ==> Dec(n)[i] != ' ';
    assert FirstToken(Dec(n)) == Dec(n);
    AtoiOfDec(n);
  }

  // ---------- one line, then the rest ----------

  function Then(text: string, later: Outcome): Outcome {
    Outcome(text + later.bytes, later.marks)
  }

  lemma OneLine(env: Env, box: Box, w: string, args: Option<string>, more: string, verb: Verb, r: Response)
    requires IsWord(Pop3, w) && Printable(ArgText(args)) && |ArgText(args)| <= 40
    requires verb == VerbOf(Upper(w)) && r == Respond(env, box, verb, ArgText(args))
    ensures Interpret(env, box, Print(w, args) + more) ==
            if r.quit then Outcome(r.text, Some(MailsOf(r.box))) else Then(r.text, Interpret(env, r.box, more))
  {
    PrintIsLine(Pop3, w, args, more);
    BodyParts(Pop3, w, args);
  }

  // ---------- what is counted ----------

  /** The messages not marked are those of the front, then those of the back; of a single one it is plain. */
  lemma {:induction false} KeptSplits(a: seq<Mail>, b: seq<Mail>, m: Mail)
    ensures Kept(a + b) == Kept(a) + Kept(b) && SizeSum(a + b) == SizeSum(a) + SizeSum(b)
    ensures Kept([m]) == (if m.del then [] else [m]) && SizeSum([m]) == m.file.size
    decreases |b|
  {
    assert [m][..0] == [];
    if b == [] {
      assert a + b == a;
    } else {
      var k := |b| - 1;
      assert (a + b)[..|a + b| - 1] == a + b[..k];
      KeptSplits(a, b[..k], m);
    }
  }

  function Where(mails: seq<Mail>, p: Mail -> bool): set<nat> {
    set i: nat | i < |mails| && p(mails[i])
  }

  lemma WhereSnoc(mails: seq<Mail>, p: Mail -> bool)
    requires mails != []
    ensures var k := |mails| - 1;
            |Where(mails, p)| == |Where(mails[..k], p)| + if p(mails[k]) then 1 else 0
  {
    var k := |mails| - 1;
    assert Where(mails, p) == Where(mails[..k], p) + if p(mails[k]) then {k as nat} else {};
  }

  /** The numbers of the farewell: the marked, the read but not marked, the neither read nor marked. */
  lemma {:induction false} MarksAreCounted(mails: seq<Mail>)
    ensures CountDel(mails) == |Where(mails, (m: Mail) => m.del)|
    ensures CountRead(mails) == |Where(mails, (m: Mail) => m.read && !m.del)|
    ensures CountUnmarked(mails) == |Where(mails, (m: Mail) => !m.read && !m.del)|
  {
    if mails == [] {
      assert forall p :: Where(mails, p) == {};
    } else {
      MarksAreCounted(mails[..|mails| - 1]);
      WhereSnoc(mails, (m: Mail) => m.del);
      WhereSnoc(mails, (m: Mail) => m.read && !m.del);
      WhereSnoc(mails, (m: Mail) => !m.read && !m.del);
    }
  }

  // ---------- the commands ----------

  /** STAT: how many messages are not marked, and their octets. */
  lemma StatLaw(env: Env, box: Box, mails: seq<Mail>, w: string, more: string)
    requires Spells(w, "STAT") && Open(env, box) == Some(mails)
    ensures Interpret(env, box, w + "\r\n" + more) ==
            Then("+OK " + Dec(|Kept(mails)|) + " " + Dec(SizeSum(Kept(mails))) + "\r\n",
                 Interpret(env, Some(mails), more))
  {
    SpelledWord(w, "STAT");
    OneLine(env, box, w, None, more, StatV, Respond(env, box, StatV, ""));
  }

  /** One line for each message that is not marked, with its own number, written from the last one back. */
  function Listing(mails: seq<Mail>): string {
    if mails == [] then ""
    else
      var k := |mails| - 1;
      Listing(mails[..k]) + (if mails[k].del then "" else Dec(k + 1) + " " + Dec(mails[k].file.size) + "\r\n")
  }

  lemma {:induction false} ListingIsScan(mails: seq<Mail>, i: nat)
    requires i <= |mails|
    ensures Listing(mails[..i]) + ScanLines(mails, i) == Listing(mails)
    decreases |mails| - i
  {
    if i == |mails| {
      assert mails[..i] == mails;
      assert Listing(mails) + "" == Listing(mails);
    } else {
      var line := if mails[i].del then "" else Dec(i + 1) + " " + Dec(mails[i].file.size) + "\r\n";
      assert mails[..i + 1][..i] == mails[..i];
      Assoc(Listing(mails[..i]), line, ScanLines(mails, i + 1));
      ListingIsScan(mails, i + 1);
    }
  }

  /** LIST: the same totals, the lines, the terminator. */
  lemma ListLaw(env: Env, box: Box, mails: seq<Mail>, w: string, more: string)
    requires Spells(w, "LIST") && Open(env, box) == Some(mails)
    ensures Interpret(env, box, w + "\r\n" + more) ==
            Then("+OK " + Dec(|Kept(mails)|) + " new messages (" + Dec(SizeSum(Kept(mails))) + " octects)\r\n" +
                 Listing(mails) + ".\r\n", Interpret(env, Some(mails), more))
  {
    SpelledWord(w, "LIST");
    ListingIsScan(mails, 0);
    assert Listing(mails[..0]) == "";
    assert "" + ScanLines(mails, 0) == ScanLines(mails, 0);
    OneLine(env, box, w, None, more, ListV, Respond(env, box, ListV, ""));
  }

  // A command with an argument, whatever its reply.
  lemma ArgumentLine(env: Env, box: Box, w: string, name: string, a: string, more: string, verb: Verb, r: Response)
    requires Spells(w, name) && |name| <= 5 && VerbOf(name) == verb && Printable(a) && |a| <= 40
    requires Respond(env, box, verb, a) == r && !r.quit
    ensures Interpret(env, box, w + " " + a + "\r\n" + more) == Then(r.text, Interpret(env, r.box, more))
  {
    SpelledWord(w, name);
    assert Print(w, Some(a)) + more == w + " " + a + "\r\n" + more;
    OneLine(env, box, w, Some(a), more, verb, r);
  }

  // The reply alone.
  lemma ListReply(env: Env, mails: seq<Mail>, arg: string, n: nat)
    requires arg != "" && Atoi(FirstToken(arg)) == n && 1 <= n <= |mails|
    ensures var m := mails[n - 1];
            RespondOn(env, mails, ListV, arg) ==
            Response(if m.del then "-ERR message " + Dec(n) + " deleted\r\n"
                     else "+OK " + (Dec(n) + " " + Dec(m.file.size) + "\r\n"),
                     Some(mails), false)
  {
  }

  /** LIST n: a message that is marked is named as such, any other with its number and size. */
  lemma ListNumberLaw(env: Env, box: Box, mails: seq<Mail>, w: string, n: nat, more: string)
    requires Spells(w, "LIST") && Open(env, box) == Some(mails) && 1 <= n <= |mails| && n < INT_LIMIT
    ensures var m := mails[n - 1];
            Interpret(env, box, w + " " + Dec(n) + "\r\n" + more) ==
            Then(if m.del then "-ERR message " + Dec(n) + " deleted\r\n"
                 else "+OK " + (Dec(n) + " " + Dec(m.file.size) + "\r\n"),
                 Interpret(env, Some(mails), more))
  {
    NumberArgument(n);
    ListReply(env, mails, Dec(n), n);
    ArgumentLine(env, box, w, "LIST", Dec(n), more, ListV, RespondOn(env, mails, ListV, Dec(n)));
  }

  // The reply alone.
  lemma RetrReply(env: Env, mails: seq<Mail>, arg: string, n: nat)
    requires arg != "" && Atoi(FirstToken(arg)) == n && 1 <= n <= |mails|
    ensures var m := mails[n - 1];
            RespondOn(env, mails, RetrV, arg) ==
            Response("+OK " + Dec(m.file.size) + " octects\r\n" + m.file.output +
                     (if env.external then "\r\n" else "") + ".\r\n",
                     Some(mails[n - 1 := m.(read := true)]), false)
  {
  }

  /** RETR n: the size, the content, the terminator; from then on the message is read. */
  lemma RetrLaw(env: Env, box: Box, mails: seq<Mail>, w: string, n: nat, more: string)
    requires Spells(w, "RETR") && Open(env, box) == Some(mails) && 1 <= n <= |mails| && n < INT_LIMIT
    ensures var m := mails[n - 1];
            Interpret(env, box, w + " " + Dec(n) + "\r\n" + more) ==
            Then("+OK " + Dec(m.file.size) + " octects\r\n" + m.file.output +
                 (if env.external then "\r\n" else "") + ".\r\n",
                 Interpret(env, Some(mails[n - 1 := m.(read := true)]), more))
  {
    NumberArgument(n);
    RetrReply(env, mails, Dec(n), n);
    ArgumentLine(env, box, w, "RETR", Dec(n), more, RetrV, RespondOn(env, mails, RetrV, Dec(n)));
  }

  // The reply alone.
  lemma DeleReply(env: Env, mails: seq<Mail>, arg: string, n: nat)
    requires arg != "" && Atoi(FirstToken(arg)) == n && 1 <= n <= |mails|
    ensures var m := mails[n - 1];
            RespondOn(env, mails, DeleV, arg) ==
            Response(if m.del then "-ERR message " + Dec(n) + " already deleted\r\n"
                     else "+OK message " + Dec(n) + " deleted\r\n",
                     Some(mails[n - 1 := m.(del := true)]), false)
  {
  }

  /** DELE n: from then on the message is marked; a second time it is refused. */
  lemma DeleLaw(env: Env, box: Box, mails: seq<Mail>, w: string, n: nat, more: string)
    requires Spells(w, "DELE") && Open(env, box) == Some(mails) && 1 <= n <= |mails| && n < INT_LIMIT
    ensures var m := mails[n - 1];
            Interpret(env, box, w + " " + Dec(n) + "\r\n" + more) ==
            Then(if m.del then "-ERR message " + Dec(n) + " already deleted\r\n"
                 else "+OK message " + Dec(n) + " deleted\r\n",
                 Interpret(env, Some(mails[n - 1 := m.(del := true)]), more))
  {
    NumberArgument(n);
    DeleReply(env, mails, Dec(n), n);
    ArgumentLine(env, box, w, "DELE", Dec(n), more, DeleV, RespondOn(env, mails, DeleV, Dec(n)));
  }

  /** DELE without a number. */
  lemma DeleNeedsNumber(env: Env, box: Box, mails: seq<Mail>, w: string, more: string)
    requires Spells(w, "DELE") && Open(env, box) == Some(mails)
    ensures Interpret(env, box, w + "\r\n" + more) ==
            Then("-ERR must give message to delete, " + Dec(|mails|) + " messages in maildrop\r\n",
                 Interpret(env, Some(mails), more))
  {
    SpelledWord(w, "DELE");
    OneLine(env, box, w, None, more, DeleV, Respond(env, box, DeleV, ""));
  }

  /** RETR without a number. */
  lemma RetrNeedsNumber(env: Env, box: Box, mails: seq<Mail>, w: string, more: string)
    requires Spells(w, "RETR") && Open(env, box) == Some(mails)
    ensures Interpret(env, box, w + "\r\n" + more) ==
            Then("-ERR could not understand argument, " + Dec(|mails|) + " messages in maildrop\r\n",
                 Interpret(env, Some(mails), more))
  {
    SpelledWord(w, "RETR");
    OneLine(env, box, w, None, more, RetrV, Respond(env, box, RetrV, ""));
  }

  // A number that names no message, whichever command takes it.
  lemma NumberRefused(env: Env, mails: seq<Mail>, verb: Verb, arg: string)
    requires (verb == ListV || verb == RetrV || verb == DeleV) && arg != ""
    requires var n := Atoi(FirstToken(arg)); n <= 0 || n > |mails|
    ensures RespondOn(env, mails, verb, arg) ==
            Response(if Atoi(FirstToken(arg)) == 0 then NotUnderstood(|mails|) else NoSuchMessage(|mails|),
                     Some(mails), false)
  {
  }

  lemma RefusedLine(env: Env, box: Box, mails: seq<Mail>, w: string, name: string, verb: Verb, a: string, more: string)
    requires Spells(w, name) && |name| <= 5 && VerbOf(name) == verb
    requires verb == ListV || verb == RetrV || verb == DeleV
    requires Open(env, box) == Some(mails) && a != "" && Printable(a) && |a| <= 40
    requires var n := Atoi(FirstToken(a)); n <= 0 || n > |mails|
    ensures Interpret(env, box, w + " " + a + "\r\n" + more) ==
            Then(if Atoi(FirstToken(a)) == 0 then NotUnderstood(|mails|) else NoSuchMessage(|mails|),
                 Interpret(env, Some(mails), more))
  {
    NumberRefused(env, mails, verb, a);
    ArgumentLine(env, box, w, name, a, more, verb, RespondOn(env, mails, verb, a));
  }

  /** An argument that names no message: not a number, or one out of range. */
  lemma RefusalLaw(env: Env, box: Box, mails: seq<Mail>, w: string, a: string, more: string)
    requires Spells(w, "LIST") || Spells(w, "RETR") || Spells(w, "DELE")
    requires Open(env, box) == Some(mails) && a != "" && Printable(a) && |a| <= 40
    requires var n := Atoi(FirstToken(a)); n <= 0 || n > |mails|
    ensures Interpret(env, box, w + " " + a + "\r\n" + more) ==
            Then(if Atoi(FirstToken(a)) == 0
                 then "-ERR could not understand argument, " + Dec(|mails|) + " messages in maildrop\r\n"
                 else "-ERR no such message, only " + Dec(|mails|) + " messages in maildrop\r\n",
                 Interpret(env, Some(mails), more))
  {
    if Spells(w, "LIST") {
      RefusedLine(env, box, mails, w, "LIST", ListV, a, more);
    } else if Spells(w, "RETR") {
      RefusedLine(env, box, mails, w, "RETR", RetrV, a, more);
    } else {
      RefusedLine(env, box, mails, w, "DELE", DeleV, a, more);
    }
  }

  /** RSET: no message is marked any more. */
  lemma RsetLaw(env: Env, box: Box, mails: seq<Mail>, w: string, more: string) returns (kept: seq<Mail>)
    requires Spells(w, "RSET") && Open(env, box) == Some(mails)
    ensures |kept| == |mails| && forall i :: 0 <= i < |mails| ==> kept[i] == mails[i].(del := false)
    ensures Interpret(env, box, w + "\r\n" + more) ==
            Then("+OK maildrop has " + Dec(|mails|) + " messages (" + Dec(SizeSum(mails)) + " octects)\r\n",
                 Interpret(env, Some(kept), more))
  {
    kept := ClearMarks(mails);
    SpelledWord(w, "RSET");
    OneLine(env, box, w, None, more, RsetV, Respond(env, box, RsetV, ""));
  }

  lemma NoopLaw(env: Env, box: Box, w: string, more: string)
    requires Spells(w, "NOOP")
    ensures Interpret(env, box, w + "\r\n" + more) == Then("+OK\r\n", Interpret(env, box, more))
  {
    SpelledWord(w, "NOOP");
    OneLine(env, box, w, None, more, NoopV, Respond(env, box, NoopV, ""));
  }

  lemma CapaLaw(env: Env, box: Box, w: string, more: string)
    requires Spells(w, "CAPA")
    ensures Interpret(env, box, w + "\r\n" + more) ==
            Then("+OK Capability list follows\r\n" + "USER\r\nPIPELINING\r\n.\r\n", Interpret(env, box, more))
  {
    SpelledWord(w, "CAPA");
    OneLine(env, box, w, None, more, CapaV, Respond(env, box, CapaV, ""));
  }

  // QUIT's reply, whatever its text.
  lemma QuitLine(env: Env, box: Box, w: string, more: string, text: string)
    requires Spells(w, "QUIT")
    requires var mails := MailsOf(box);
             text == SignOff(CountUnmarked(mails), |mails| - CountRead(mails), CountDel(mails), |mails|)
    ensures Interpret(env, box, w + "\r\n" + more) == Outcome(text, Some(MailsOf(box)))
  {
    SpelledWord(w, "QUIT");
    OneLine(env, box, w, None, more, QuitV, Response(text, box, true));
  }

  /** QUIT: the farewell, and the marks as they are by then; nothing behind it is answered. */
  lemma QuitLaw(env: Env, box: Box, w: string, more: string)
    requires Spells(w, "QUIT")
    ensures var mails := MailsOf(box);
            Interpret(env, box, w + "\r\n" + more) ==
            Outcome(if CountUnmarked(mails) == 0 then "+OK server signing off (maildrop empty)\r\n"
                    else "+OK server signing off (" + Dec(|mails| - CountRead(mails)) + " unread, " +
                         Dec(CountDel(mails)) + " removed, " + Dec(|mails|) + " total)\r\n",
                    Some(mails))
  {
    var mails := MailsOf(box);
    QuitLine(env, box, w, more, SignOff(CountUnmarked(mails), |mails| - CountRead(mails), CountDel(mails), |mails|));
  }

  /** Any other word changes nothing. */
  lemma UnknownLaw(env: Env, box: Box, w: string, args: Option<string>, more: string)
    requires IsWord(Pop3, w) && Printable(ArgText(args)) && |ArgText(args)| <= 40
    requires Upper(w) !in ["STAT", "LIST", "RETR", "DELE", "RSET", "NOOP", "QUIT", "CAPA"]
    ensures Interpret(env, box, Print(w, args) + more) == Then("-ERR invalid command\r\n", Interpret(env, box, more))
  {
    NotAVerb(Upper(w));
    OneLine(env, box, w, args, more, NoVerb, Respond(env, box, NoVerb, ArgText(args)));
  }

  lemma NotAVerb(cmd: string)
    requires cmd !in ["STAT", "LIST", "RETR", "DELE", "RSET", "NOOP", "QUIT", "CAPA"]
    ensures VerbOf(cmd) == NoVerb
  {
    var names := ["STAT", "LIST", "RETR", "DELE", "RSET", "NOOP", "QUIT", "CAPA"];
    assert names[0] == "STAT" && names[1] == "LIST" && names[2] == "RETR" && names[3] == "DELE";
    assert names[4] == "RSET" && names[5] == "NOOP" && names[6] == "QUIT" && names[7] == "CAPA";
  }

  /** A maildrop that cannot be read is no reason to close. */
  lemma UnreadableLaw(env: Env, w: string, more: string)
    requires Spells(w, "STAT") || Spells(w, "LIST") || Spells(w, "RETR") || Spells(w, "DELE") || Spells(w, "RSET")
    requires env.listing.Unreadable?
    ensures Interpret(env, None, w + "\r\n" + more) == Then("-ERR server error\r\n", Interpret(env, None, more))
  {
    var verb := if Spells(w, "STAT") then StatV else if Spells(w, "LIST") then ListV
                else if Spells(w, "RETR") then RetrV else if Spells(w, "DELE") then DeleV else RsetV;
    SpelledWord(w, if verb == StatV then "STAT" else if verb == ListV then "LIST"
                   else if verb == RetrV then "RETR" else if verb == DeleV then "DELE" else "RSET");
    OneLine(env, None, w, None, more, verb, Respond(env, None, verb, ""));
  }

  // ---------- the numbers can be read back ----------

  // atoi stops at the first character that is no digit.
  lemma {:induction false} DigitsStop(s: string, tail: string, acc: nat)
    requires forall i :: 0 <= i < |s| ==> IsDigit(s[i])
    requires tail != "" && !('0' <= tail[0] <= '9')
    ensures Digits(s + tail, acc) == Digits(s, acc)
    decreases |s|
  {
    if s == [] {
      assert s + tail == tail;
    } else {
      assert (s + tail)[1..] == s[1..] + tail;
      DigitsStop(s[1..], tail, 10 * acc + (s[0] as int - '0' as int));
    }
  }

  lemma DigitsOfDecThen(n: nat, tail: string)
    requires tail != "" ==> !('0' <= tail[0] <= '9')
    ensures Digits(Dec(n) + tail, 0) == n
  {
    DecIsDigits(n);
    DigitsOfDec(n);
    if tail == "" {
      assert Dec(n) + tail == Dec(n);
    } else {
      DigitsStop(Dec(n), tail, 0);
    }
  }

  /** A number is read up to the first character that is no digit. */
  lemma AtoiReads(n: nat, tail: string)
    requires tail != "" ==> !('0' <= tail[0] <= '9')
    ensures Atoi(Dec(n) + tail) == n
  {
    DecIsDigits(n);
    DigitsOfDecThen(n, tail);
    assert (Dec(n) + tail)[0] == Dec(n)[0];
  }

  /** A sign before it counts. */
  lemma AtoiReadsSigned(n: nat, tail: string)
    requires tail != "" ==> !('0' <= tail[0] <= '9')
    ensures Atoi("+" + (Dec(n) + tail)) == n && Atoi("-" + (Dec(n) + tail)) == 0 - n
  {
    var s := Dec(n) + tail;
    DigitsOfDecThen(n, tail);
    assert ("+" + s)[1..] == s && ("-" + s)[1..] == s;
  }

  /** Text that does not start like a number reads as 0. */
  lemma AtoiOfText(s: string)
    requires s == "" || !('0' <= s[0] <= '9' || s[0] == '+' || s[0] == '-')
    ensures Atoi(s) == 0
  {
  }

  // A number between two pieces of text.
  lemma NumberInside(front: string, n: nat, tail: string)
    requires tail != "" && !('0' <= tail[0] <= '9')
    ensures var r := front + Dec(n) + tail;
            Atoi(r[|front|..]) == n && r[|front| + |Dec(n)|..] == tail &&
            (tail[0] == ' ' ==> IndexOf(r[|front|..], ' ') == |Dec(n)|)
  {
    var r := front + Dec(n) + tail;
    assert r[|front|..] == Dec(n) + tail;
    AtoiReads(n, tail);
    DecIsDigits(n);
    if tail[0] == ' ' {
      BlankBehind(Dec(n), tail);
    }
  }

  /** Of STAT's reply the first number is the count, the second the octets. */
  lemma StatReadsBack(count: nat, octets: nat)
    ensures var r := "+OK " + Dec(count) + " " + Dec(octets) + "\r\n";
            var blank := IndexOf(r[4..], ' ');
            Atoi(r[4..]) == count && blank == |Dec(count)| && Atoi(r[4 + blank + 1..]) == octets
  {
    var a, b := Dec(count), Dec(octets);
    var r := "+OK " + a + " " + b + "\r\n";
    var tail := " " + b + "\r\n";
    assert r == "+OK " + a + tail;
    NumberInside("+OK ", count, tail);
    var front := "+OK " + a + " ";
    assert r == front + b + "\r\n";
    NumberInside(front, octets, "\r\n");
  }

  lemma BlankBehind(a: string, tail: string)
    requires (forall i :: 0 <= i < |a| ==> a[i] != ' ') && tail != "" && tail[0] == ' '
    ensures IndexOf(a + tail, ' ') == |a|
  {
    var s := a + tail;
    assert s[|a|] == ' ';
    forall i | 0 <= i < |a| ensures s[i] != ' ' {
      assert s[i] == a[i];
    }
  }

  /** The token of an argument is what precedes its first blank. */
  lemma TokenLaw(a: string, tail: string)
    requires (forall i :: 0 <= i < |a| ==> a[i] != ' ') && (tail == "" || tail[0] == ' ')
    ensures FirstToken(a + tail) == a
  {
    if tail != "" {
      BlankBehind(a, tail);
    } else {
      assert a + tail == a;
    }
  }
}
