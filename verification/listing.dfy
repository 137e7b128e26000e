/** LIST without an argument, as the callback produces it: a line a call, on a drained buffer each time. */
module Listings {
  import opened Buffers
  import opened Maildrops
  import opened Replies
  import opened Sessions
  import opened Reference
  import opened Delivery

  /** What up to `calls` calls produce, the buffer being sent between them, and the connection they leave. */
  function Generate(c: Client, env: Env, calls: nat): (string, Client)
    decreases calls
  {
    if calls == 0 || c.filler != ListAllNew then ("", c)
    else
      var r := ListMore(c.(out := EmptyBuf(BUFFER_SIZE)), env);
      var (text, last) := Generate(r.(out := EmptyBuf(BUFFER_SIZE)), env, calls - 1);
      (r.out.content + text, last)
  }

  function KeptFrom(mails: seq<Mail>, i: nat): nat
    decreases |mails| - i
  {
    if i >= |mails| then 0 else (if mails[i].del then 0 else 1) + KeptFrom(mails, i + 1)
  }

  lemma {:induction false} KeptFromIsKept(mails: seq<Mail>, i: nat)
    requires i <= |mails|
    ensures KeptFrom(mails, i) + |Kept(mails[..i])| == |Kept(mails)|
    decreases |mails| - i
  {
    if i == |mails| {
      assert mails[..i] == mails;
    } else {
      assert mails[..i + 1][..i] == mails[..i];
      KeptFromIsKept(mails, i + 1);
    }
  }

  lemma {:induction false} KeptFromSkips(mails: seq<Mail>, i: nat)
    requires i <= |mails|
    ensures KeptFrom(mails, i) == KeptFrom(mails, NextKept(mails, i))
    decreases |mails| - i
  {
    if i < |mails| && mails[i].del {
      KeptFromSkips(mails, i + 1);
    }
  }

  // A LIST in progress.
  ghost predicate InList(c: Client) {
    DropOk(c.maildir) && c.maildir.loaded && c.listed <= |c.maildir.mails| && c.filler == ListAllNew
  }

  // The connection after the call that has put the line of message `i`, the buffer sent.
  function Listed(c: Client, i: nat): Client {
    var last := i + 1 == |c.maildir.mails|;
    c.(out := EmptyBuf(BUFFER_SIZE), interest := Write, listed := if last then 0 else i + 1,
       filler := if last then NoFiller else c.filler)
  }

  lemma GenerateOnce(c: Client, env: Env, calls: nat, r: Client)
    requires c.filler == ListAllNew && r == ListMore(c.(out := EmptyBuf(BUFFER_SIZE)), env)
    ensures var rest := Generate(r.(out := EmptyBuf(BUFFER_SIZE)), env, calls);
            Generate(c, env, calls + 1) == (r.out.content + rest.0, rest.1)
  {
  }

  // One call that produces a line.
  lemma GenerateLine(c: Client, env: Env, calls: nat, line: string)
    requires InList(c) && NextKept(c.maildir.mails, c.listed) < |c.maildir.mails|
    requires var i := NextKept(c.maildir.mails, c.listed); line == ScanLine(i + 1, c.maildir.mails[i].file.size)
    ensures var rest := Generate(Listed(c, NextKept(c.maildir.mails, c.listed)), env, calls);
            Generate(c, env, calls + 1) == (line + rest.0, rest.1)
  {
    var r := ListMore(c.(out := EmptyBuf(BUFFER_SIZE)), env);
    ListGoesOn(c.(out := EmptyBuf(BUFFER_SIZE)), env);
    assert r.(out := EmptyBuf(BUFFER_SIZE)) == Listed(c, NextKept(c.maildir.mails, c.listed));
    GenerateOnce(c, env, calls, r);
  }

  /** A result that is the rest of the list, with the callback reset. */
  ghost predicate IsRest(result: (string, Client), c: Client) {
    && result.0 == ScanLines(c.maildir.mails, c.listed)
    && result.1.filler == NoFiller && result.1.listed == 0 && result.1.maildir == c.maildir
  }

  /** `calls` calls complete the list. */
  ghost predicate Completes(c: Client, env: Env, calls: nat) {
    IsRest(Generate(c, env, calls), c)
  }

  // The call that finds nothing more.
  lemma EndCompletes(c: Client, env: Env)
    requires InList(c) && NextKept(c.maildir.mails, c.listed) == |c.maildir.mails|
    ensures Completes(c, env, 1)
  {
    ListEnds(c.(out := EmptyBuf(BUFFER_SIZE)), env);
    assert "" + "" == "";
  }

  // A line, then the rest behind it.
  lemma LineThenRest(c: Client, line: string, rest: (string, Client))
    requires InList(c) && NextKept(c.maildir.mails, c.listed) < |c.maildir.mails|
    requires var i := NextKept(c.maildir.mails, c.listed);
             && ScanLines(c.maildir.mails, c.listed) == line + ScanLines(c.maildir.mails, i + 1)
             && rest.0 == ScanLines(c.maildir.mails, i + 1)
    requires rest.1.filler == NoFiller && rest.1.listed == 0 && rest.1.maildir == c.maildir
    ensures IsRest((line + rest.0, rest.1), c)
  {
  }

  // What follows the line of message `i`.
  lemma RestAfter(c: Client, env: Env, i: nat, calls: nat)
    requires InList(c) && i < |c.maildir.mails|
    requires i + 1 < |c.maildir.mails| ==> Completes(Listed(c, i), env, calls)
    ensures var rest := Generate(Listed(c, i), env, calls);
            && rest.0 == ScanLines(c.maildir.mails, i + 1)
            && rest.1.filler == NoFiller && rest.1.listed == 0 && rest.1.maildir == c.maildir
  {
    if i + 1 == |c.maildir.mails| {
      assert Generate(Listed(c, i), env, calls) == ("", Listed(c, i));
    }
  }

  // A call that produces a line.
  lemma LineCompletes(c: Client, env: Env, calls: nat)
    requires InList(c) && NextKept(c.maildir.mails, c.listed) < |c.maildir.mails|
    requires var i := NextKept(c.maildir.mails, c.listed);
             i + 1 < |c.maildir.mails| ==> Completes(Listed(c, i), env, calls)
    ensures Completes(c, env, calls + 1)
  {
    var i := NextKept(c.maildir.mails, c.listed);
    var line := ScanLine(i + 1, c.maildir.mails[i].file.size);
    NextScanLine(c.maildir.mails, c.listed);
    GenerateLine(c, env, calls, line);
    RestAfter(c, env, i, calls);
    LineThenRest(c, line, Generate(Listed(c, i), env, calls));
  }

  lemma CallsAhead(mails: seq<Mail>, from: nat, n: nat)
    requires from <= |mails| && n == KeptFrom(mails, from)
    ensures var i := NextKept(mails, from);
            && (i == |mails| ==> n == 0)
            && (i + 1 == |mails| ==> n == 1)
            && (i + 1 < |mails| ==> n == 1 + KeptFrom(mails, i + 1))
  {
    KeptFromSkips(mails, from);
  }

  lemma StillInList(c: Client, i: nat)
    requires InList(c) && i + 1 < |c.maildir.mails|
    ensures InList(Listed(c, i)) && Listed(c, i).maildir == c.maildir && Listed(c, i).listed == i + 1
  {
  }

  lemma CallCompletes(c: Client, env: Env, n: nat, i: nat)
    requires InList(c) && i == NextKept(c.maildir.mails, c.listed)
    requires i == |c.maildir.mails| ==> n == 0
    requires i + 1 < |c.maildir.mails| ==> Completes(Listed(c, i), env, n)
    ensures Completes(c, env, n + 1)
  {
    if i == |c.maildir.mails| {
      EndCompletes(c, env);
    } else {
      LineCompletes(c, env, n);
    }
  }

  lemma {:induction false} CallsComplete(c: Client, env: Env, n: nat)
    requires InList(c) && n == KeptFrom(c.maildir.mails, c.listed)
    ensures Completes(c, env, n + 1)
    decreases |c.maildir.mails| - c.listed
  {
    var i := NextKept(c.maildir.mails, c.listed);
    CallsAhead(c.maildir.mails, c.listed, n);
    if i + 1 < |c.maildir.mails| {
      StillInList(c, i);
      CallsComplete(Listed(c, i), env, n - 1);
    }
    CallCompletes(c, env, n, i);
  }

  /** Within one call more than there are kept messages, the callback has produced one line for each of
      them in order, and nothing else, and has reset itself. */
  lemma ListIsComplete(c: Client, env: Env)
    requires InList(c) && c.listed == 0
    ensures var (text, last) := Generate(c, env, |Kept(c.maildir.mails)| + 1);
            && text == ScanLines(c.maildir.mails, 0)
            && last.filler == NoFiller && last.listed == 0 && last.maildir == c.maildir
  {
    KeptFromIsKept(c.maildir.mails, 0);
    CallsComplete(c, env, KeptFrom(c.maildir.mails, 0));
  }
}
