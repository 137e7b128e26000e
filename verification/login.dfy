/** What the AUTH commands accept, and what they answer (auth.c). */
module Logins {
  import opened Replies
  import opened Sessions
  import Users

  /** A command of AUTH with the login state it meets, run and answered. */
  ghost function Verdict(c: Client, slots: Users.Slots): (Client, Users.Slots, bool, string) {
    var (r, after, ok) := ProcessCmd(c, slots);
    (r, after, ok, GenerateMsg(r, after, ok))
  }

  /** TRANSACTION is entered exactly by PASS with the password of the name that is held. The table lists
      the name as online from then on, and the client is told so. */
  lemma LoginIff(c: Client, slots: Users.Slots)
    requires !c.parser.quit
    ensures var (r, after, ok, text) := Verdict(c, slots);
            && (r.next == TRANSACTION <==>
                  c.parser.cmd == "PASS" && c.user != "" &&
                  Users.Lookup(slots, c.user).Some? && Users.Lookup(slots, c.user).value.pass == c.parser.arg)
            && (r.next == TRANSACTION ==>
                  && r.user == c.user && Users.GetState(after, c.user) == Users.Online
                  && ok && text == "+OK logged in\r\n")
  {
    if AuthVerbOf(c.parser.cmd) == PassA {
      Users.FirstIsFind(Users.SetState(slots, c.user, Users.Online), c.user, Users.Find(slots, c.user));
    }
  }

  // The table after an accepted USER.
  lemma ClaimedName(u: string, slots: Users.Slots, name: string)
    requires Users.Exists(slots, name)
    ensures var released := if u != "" then Users.SetState(slots, u, Users.Offline) else slots;
            Users.GetState(Users.SetState(released, name, Users.Logging), name) == Users.Logging
  {
    var released := if u != "" then Users.SetState(slots, u, Users.Offline) else slots;
    Users.FirstIsFind(released, name, Users.Find(slots, name));
    Users.FirstIsFind(Users.SetState(released, name, Users.Logging), name, Users.Find(slots, name));
  }

  /** USER is accepted exactly for a listed name that is offline; a refused USER changes nothing but the
      error, so the name held before is kept. */
  lemma UserIff(c: Client, slots: Users.Slots)
    requires c.parser.cmd == "USER"
    ensures var (r, after, ok, text) := Verdict(c, slots);
            var name := c.parser.arg;
            && (ok <==> Users.GetState(slots, name) == Users.Offline)
            && (ok ==> r.user == name && Users.GetState(after, name) == Users.Logging)
            && (!ok ==> r.user == c.user && after == slots)
  {
    if Users.Exists(slots, c.parser.arg) {
      ClaimedName(c.user, slots, c.parser.arg);
    }
  }

  /** CAPA lists the capabilities exactly when the connection is not between USER and PASS, where it is
      answered as if it were another USER. */
  lemma CapaAnswersIff(c: Client, slots: Users.Slots)
    requires c.parser.cmd == "CAPA" && !c.parser.quit
    ensures var (r, after, ok, text) := Verdict(c, slots);
            && (text == CAPABILITIES <==> Users.GetState(slots, c.user) != Users.Logging)
            && (text != CAPABILITIES ==> text == "+OK valid user\r\n")
  {
    assert |CAPABILITIES| != |"+OK valid user\r\n"|;
  }
}
