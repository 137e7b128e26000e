/** AUTH in the client's own terms: for each command by its literal name, the bytes that answer it, the phase it leads
    to, the name held afterwards and what the user table then says of every name. Nothing here names the functions
    that decide it. */
module AuthLaws {
  import opened Text
  import opened Parsers
  import opened Lines
  import opened Maildrops
  import opened Sessions
  import opened Delivery
  import opened Machine
  import opened Schedules
  import opened Lifecycle
  import opened Dialogues
  import opened Exclusion
  import Users

  /** A chance to write in AUTH that meets the complete command `cmd` with `arg`, and whose send takes the reply. */
  ghost predicate Meets(x: Conn, env: Env, slots: Users.Slots, m: nat, cmd: string, arg: string) {
    && Talking(x, env) && Enabled(x, Writable(m)) && TakenWhole(x.c, slots, m)
    && var q := Consume(x.c).parser;
    q.ended && q.cmd == cmd && q.arg == arg
  }

  /** A line as it is sent is such a command, and what follows it is left for the next one. */
  lemma LineIsMet(x: Conn, env: Env, slots: Users.Slots, m: nat, name: string, args: Option<string>, more: string)
    requires Talking(x, env) && Enabled(x, Writable(m)) && TakenWhole(x.c, slots, m)
    requires x.c.parser == INIT_P && x.c.inp.content == Print(name, args) + more
    requires IsWord(Pop3, name) && Printable(ArgText(args)) && |ArgText(args)| <= 40
    ensures Meets(x, env, slots, m, name, ArgText(args)) && OnWrite(x, env, slots, m).0.c.inp.content == more
  {
    LineArrivesIff(Pop3, name, args, more);
    ConsumeLeaves(x.c);
    AuthLine(x, env, slots, m, name, ArgText(args));
  }

  /** After the event: what was sent, the phase, and the name held. */
  ghost predicate Leads(x: Conn, y: Conn, text: string, phase: int, user: string) {
    y.c.wire == x.c.wire + text && y.current == Some(phase) && (y.closed <==> phase == DONE) && y.c.user == user
  }

  /** `after` lists the same names with the same passwords; the states are those before but for `changes`. */
  ghost predicate Becomes(before: Users.Slots, after: Users.Slots, changes: map<string, Users.UserState>) {
    forall n :: Users.Lookup(after, n) ==
                if n in changes && Users.Lookup(before, n).Some?
                then Some(Users.Lookup(before, n).value.(state := changes[n])) else Users.Lookup(before, n)
  }

  lemma SetBecomes(slots: Users.Slots, name: string, st: Users.UserState)
    requires st != Users.NotFound
    ensures Becomes(slots, Users.SetState(slots, name, st), map[name := st])
  {
    var r := Users.SetState(slots, name, st);
    forall n
      ensures Users.Lookup(r, n) == if n == name && Users.Lookup(slots, n).Some?
                                    then Some(Users.Lookup(slots, n).value.(state := st)) else Users.Lookup(slots, n)
    {
      Users.FirstIsFind(r, n, Users.Find(slots, n));
    }
  }

  // One change after the other.
  lemma BecomesBoth(a: Users.Slots, b: Users.Slots, c: Users.Slots, u: string, s: Users.UserState,
                    v: string, t: Users.UserState)
    requires Becomes(a, b, map[u := s]) && Becomes(b, c, map[v := t])
    ensures Becomes(a, c, map[u := s][v := t])
  {
  }

  // One command, from the line to the jump and the close.
  lemma AuthLine(x: Conn, env: Env, slots: Users.Slots, m: nat, cmd: string, arg: string)
    requires Meets(x, env, slots, m, cmd, arg)
    ensures var (y, after) := OnWrite(x, env, slots, m);
            var (l, table, ok) := AuthCommand(LoginOf(x.c), slots, AuthVerbOf(cmd), arg);
            && Leads(x, y, AuthText(AuthVerbOf(cmd), arg, x.c.user, slots, table, ok), l.next, l.user)
            && after == (if l.next == DONE && l.user != "" then Users.SetState(table, l.user, Users.Offline) else table)
            && y.c.inp.content == Consume(x.c).inp.content
  {
    ConsumeLeaves(x.c);
    FeedKeepsQuit(Pop3, x.c.parser, x.c.inp.content);
    var c1 := Consume(x.c);
    AnswerExchanges(c1, slots, m);
    AuthAnswerShape(c1, slots, m);
    var (r, after, to) := AuthAnswer(c1, slots, m);
    assert AuthProcess(x.c, slots, m) == (r, after, to);
    AnswerJumps(x, env, after, r, to);
    FinishShape(x.(c := r), to, after);
  }

  /** The greeting, sent with the terminator of its C string; a peer that does not take all 19 bytes at once is
      closed. */
  lemma GreetingLaw(fs: Files, env: Env, slots: Users.Slots, m: nat)
    requires EnvOk(env)
    ensures var (y, after) := OnWrite(NewConn(fs), env, slots, m);
            && after == slots && (y.closed <==> m < 19)
            && (m >= 19 ==> Leads(NewConn(fs), y, "+OK server ready\r\n\0", AUTH, ""))
  {
    GreetingStep(NewConn(fs), env, slots, m);
    if m >= 19 {
      GreetingOpens(fs, env, slots, m);
      assert "" + "+OK server ready\r\n\0" == "+OK server ready\r\n\0";
    }
  }

  // ---------- the commands ----------

  lemma OnlyQuitEnds(l: Login, slots: Users.Slots, cmd: string, arg: string)
    requires l.err != BadChar
    ensures AuthCommand(l, slots, AuthVerbOf(cmd), arg).0.next == DONE <==> cmd == "QUIT"
  {
  }

  /** A complete command ends the connection exactly when it is QUIT. */
  lemma OnlyQuitCloses(x: Conn, env: Env, slots: Users.Slots, m: nat, cmd: string, arg: string)
    requires Meets(x, env, slots, m, cmd, arg)
    ensures var y := OnWrite(x, env, slots, m).0;
            && (y.closed <==> cmd == "QUIT")
            && (y.current == Some(DONE) <==> cmd == "QUIT")
  {
    OnlyQuitEnds(LoginOf(x.c), slots, cmd, arg);
    AuthLine(x, env, slots, m, cmd, arg);
  }

  /** QUIT says so, and frees the name held. */
  lemma QuitInAuth(x: Conn, env: Env, slots: Users.Slots, m: nat, arg: string)
    requires Meets(x, env, slots, m, "QUIT", arg)
    ensures var (y, after) := OnWrite(x, env, slots, m);
            && Leads(x, y, "+OK closing connection\r\n", DONE, x.c.user)
            && Becomes(slots, after, if x.c.user == "" then map[] else map[x.c.user := Users.Offline])
  {
    AuthLine(x, env, slots, m, "QUIT", arg);
    SetBecomes(slots, x.c.user, Users.Offline);
  }

  /** USER with a listed name that is offline: the name is held from then on, and one held before is free again. */
  lemma UserTakes(x: Conn, env: Env, slots: Users.Slots, m: nat, name: string)
    requires Meets(x, env, slots, m, "USER", name)
    requires Users.Lookup(slots, name).Some? && Users.Lookup(slots, name).value.state == Users.Offline
    ensures var (y, after) := OnWrite(x, env, slots, m);
            && Leads(x, y, "+OK valid user\r\n", AUTH, name)
            && Becomes(slots, after, if x.c.user == "" then map[name := Users.Logging]
                                     else map[x.c.user := Users.Offline][name := Users.Logging])
  {
    AuthLine(x, env, slots, m, "USER", name);
    SetBecomes(slots, x.c.user, Users.Offline);
    var released := if x.c.user != "" then Users.SetState(slots, x.c.user, Users.Offline) else slots;
    SetBecomes(released, name, Users.Logging);
    if x.c.user != "" {
      BecomesBoth(slots, released, Users.SetState(released, name, Users.Logging),
                  x.c.user, Users.Offline, name, Users.Logging);
    }
  }

  /** USER with any other name: refused, and nothing changes. */
  lemma UserRefused(x: Conn, env: Env, slots: Users.Slots, m: nat, name: string)
    requires Meets(x, env, slots, m, "USER", name)
    requires Users.Lookup(slots, name).Some? ==> Users.Lookup(slots, name).value.state != Users.Offline
    ensures var (y, after) := OnWrite(x, env, slots, m);
            && Leads(x, y, if Users.Lookup(slots, name).Some? then "-ERR user already online\r\n"
                           else "-ERR never heard of that user\r\n", AUTH, x.c.user)
            && after == slots
  {
    AuthLine(x, env, slots, m, "USER", name);
  }

  /** PASS with no name held: refused, and nothing changes. */
  lemma PassNeedsUser(x: Conn, env: Env, slots: Users.Slots, m: nat, pass: string)
    requires Meets(x, env, slots, m, "PASS", pass) && x.c.user == ""
    ensures var (y, after) := OnWrite(x, env, slots, m);
            Leads(x, y, "-ERR cant use PASS before USER\r\n", AUTH, "") && after == slots
  {
    AuthLine(x, env, slots, m, "PASS", pass);
  }

  /** PASS with the password listed for the name held: the session begins and the name is online. */
  lemma PassAdmits(x: Conn, env: Env, slots: Users.Slots, m: nat, pass: string)
    requires Meets(x, env, slots, m, "PASS", pass) && x.c.user != ""
    requires Users.Lookup(slots, x.c.user).Some? && Users.Lookup(slots, x.c.user).value.pass == pass
    ensures var (y, after) := OnWrite(x, env, slots, m);
            && Leads(x, y, "+OK logged in\r\n", TRANSACTION, x.c.user)
            && Becomes(slots, after, map[x.c.user := Users.Online])
  {
    AuthLine(x, env, slots, m, "PASS", pass);
    SetBecomes(slots, x.c.user, Users.Online);
  }

  /** PASS with any other password: refused, and the name is given back. */
  lemma PassRefused(x: Conn, env: Env, slots: Users.Slots, m: nat, pass: string)
    requires Meets(x, env, slots, m, "PASS", pass) && x.c.user != ""
    requires Users.Lookup(slots, x.c.user).Some? ==> Users.Lookup(slots, x.c.user).value.pass != pass
    ensures var (y, after) := OnWrite(x, env, slots, m);
            && Leads(x, y, "-ERR invalid password :(\r\n", AUTH, "")
            && Becomes(slots, after, map[x.c.user := Users.Offline])
  {
    AuthLine(x, env, slots, m, "PASS", pass);
    SetBecomes(slots, x.c.user, Users.Offline);
  }

  lemma CapaText(l: Login, slots: Users.Slots, arg: string)
    ensures var (l2, after, ok) := AuthCommand(l, slots, AuthVerbOf("CAPA"), arg);
            var held := Users.Lookup(slots, l.user);
            && l2.next == AUTH && l2.user == l.user && after == slots
            && AuthText(AuthVerbOf("CAPA"), arg, l.user, slots, after, ok) ==
               if held.Some? && held.value.state == Users.Logging then "+OK valid user\r\n"
               else "+OK Capability list follows\r\n" + "USER\r\nPIPELINING\r\n.\r\n"
  {
  }

  /** CAPA: nothing changes. Between USER and PASS it is answered as USER is. */
  lemma CapaInAuth(x: Conn, env: Env, slots: Users.Slots, m: nat, arg: string)
    requires Meets(x, env, slots, m, "CAPA", arg)
    ensures var (y, after) := OnWrite(x, env, slots, m);
            var held := Users.Lookup(slots, x.c.user);
            && Leads(x, y, if held.Some? && held.value.state == Users.Logging then "+OK valid user\r\n"
                           else "+OK Capability list follows\r\n" + "USER\r\nPIPELINING\r\n.\r\n", AUTH, x.c.user)
            && after == slots
  {
    CapaText(LoginOf(x.c), slots, arg);
    AuthLine(x, env, slots, m, "CAPA", arg);
  }

  /** Any other name, lower case included: refused, and the name held is forgotten although the table keeps it. */
  lemma UnknownInAuth(x: Conn, env: Env, slots: Users.Slots, m: nat, cmd: string, arg: string)
    requires Meets(x, env, slots, m, cmd, arg)
    requires cmd != "QUIT" && cmd != "USER" && cmd != "PASS" && cmd != "CAPA"
    ensures var (y, after) := OnWrite(x, env, slots, m);
            Leads(x, y, "-ERR invalid command\r\n", AUTH, "") && after == slots
  {
    AuthLine(x, env, slots, m, cmd, arg);
  }
}
