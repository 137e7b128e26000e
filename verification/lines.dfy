/** Lines as clients send them, and what the server's parsers make of them. */
module Lines {
  import opened Text
  import opened Parsers

  predicate Printable(s: string) {
    forall i :: 0 <= i < |s| ==> IsPrint(s[i])
  }

  /** A line as a client sends it; send_cmd of the monitor client does. */
  function Print(name: string, args: Option<string>): string {
    match args
    case None => name + "\r\n"
    case Some(a) => name + " " + a + "\r\n"
  }

  predicate IsWord(d: Dialect, name: string) {
    |name| <= MaxCmd(d) && forall i :: 0 <= i < |name| ==> CmdClass(d)(name[i])
  }

  function ArgText(args: Option<string>): string {
    match args
    case None => ""
    case Some(a) => a
  }

  // The text of a line before its CRLF.
  function BodyOf(name: string, args: Option<string>): string {
    match args
    case None => name
    case Some(a) => name + " " + a
  }

  lemma BlankAfterName(d: Dialect, name: string, args: Option<string>)
    requires IsWord(d, name)
    ensures IndexOf(BodyOf(name, args), ' ') == |name|
  {
    var body := BodyOf(name, args);
    forall k | 0 <= k < |name| ensures body[k] != ' ' {
      assert body[k] == name[k];
    }
    assert args.Some? ==> body[|name|] == ' ';
  }

  lemma BodyIsPlain(d: Dialect, name: string, args: Option<string>)
    requires IsWord(d, name) && Printable(ArgText(args))
    ensures var body := BodyOf(name, args); LineEnd(body) == |body| && AllLegal(body)
  {
    var body := BodyOf(name, args);
    assert Printable(body);
  }

  lemma BodyParts(d: Dialect, name: string, args: Option<string>)
    requires IsWord(d, name) && Printable(ArgText(args))
    ensures var body := BodyOf(name, args);
            CmdOf(d, body) == name && ArgOf(body) == ArgText(args)
  {
    var body := BodyOf(name, args);
    BlankAfterName(d, name, args);
    assert body[..|name|] == name;
    KeepAll(name, CmdClass(d));
    if args.Some? {
      assert body[|name| + 1..] == args.value;
      KeepAll(args.value, IsPrint);
    }
  }

  lemma PrintIsLine(d: Dialect, name: string, args: Option<string>, more: string)
    requires IsWord(d, name) && Printable(ArgText(args))
    ensures var s := Print(name, args) + more;
            && Body(s) == BodyOf(name, args) && Complete(s) && s[LineLen(s)..] == more
            && AllLegal(Print(name, args))
  {
    var body := BodyOf(name, args);
    BodyIsPlain(d, name, args);
    var s := Print(name, args) + more;
    assert s == body + "\r\n" + more;
    assert forall k :: 0 <= k < |body| ==> s[k] == body[k];
    assert s[|body|] == CR && s[|body| + 1] == LF;
    assert LineEnd(s) == |body|;
  }

  /** One printed command: the parser ends on it exactly when the argument has at most 40 bytes, with
      the name and argument that were printed and none of what follows taken. Otherwise it is stuck. */
  lemma LineArrivesIff(d: Dialect, name: string, args: Option<string>, more: string)
    requires IsWord(d, name) && Printable(ArgText(args))
    ensures var (q, rest) := Feed(d, INIT_P, Print(name, args) + more);
            && (q.ended <==> |ArgText(args)| <= 40)
            && (q.ended ==> q.err == NoError && q.cmd == name && q.arg == ArgText(args) && rest == more)
            && (!q.ended ==> forall later :: Feed(d, q, later) == (q, later))
  {
    var s := Print(name, args) + more;
    PrintIsLine(d, name, args, more);
    BodyParts(d, name, args);
    FeedIsGrammar(d, s);
    if Fits(Body(s)) {
      NoErrorAtEnd(d, s);
    }
  }

  // A line that ends in CRLF ends in S3.
  lemma NoErrorAtEnd(d: Dialect, s: string)
    requires Complete(s) && Fits(Body(s)) && s[LineEnd(s)] == CR && s[LineEnd(s) + 1] == LF
    ensures Feed(d, INIT_P, s).0.err == NoError
  {
    var e := LineEnd(s);
    assert s == s[..e] + s[e..];
    FeedFromBody(d, s, s[..e], s[e..]);
    EndOfLine(d, Within(d, s[..e]), s[e..]);
  }
}
