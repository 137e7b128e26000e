/** Many connections over one user table: the exclusive-access rule of section 4 of RFC 1939. */
module Exclusion {
  import opened Text
  import opened Buffers
  import opened Parsers
  import opened Maildrops
  import opened Sessions
  import opened Delivery
  import opened Machine
  import opened Schedules
  import opened Lifecycle
  import opened Replies
  import opened Dialogues
  import Users

  /** Connections are numbered in order of acceptance and keep their number once closed. The user table and the
      files are shared by all of them. */
  datatype World = World(conns: map<nat, Conn>, table: Users.Table, files: Files)

  datatype Happening =
    | Accept(id: nat)
    | Dispatch(id: nat, e: Event)
    | AddUser(name: string, pass: string)
    | DeleteUser(name: string)

  /** What each connection finds in its `new/`; where that is depends on its user. */
  type Places = nat -> Env

  ghost predicate PlacesOk(envs: Places) {
    forall id :: EnvOk(envs(id))
  }

  /** The path that maildir_set_username gives a user's `new/`. */
  function HomeOf(user: string): (dir: string)
    ensures IsNewDir(dir)
  {
    "bin/maildirs/" + user + "/Maildir/" + "new"
  }

  function PlaceOf(w: World, envs: Places, id: nat): Env
    requires id in w.conns
  {
    envs(id).(dir := HomeOf(w.conns[id].c.user))
  }

  /** A connection with the files as they are by now. */
  function Seen(x: Conn, files: Files): Conn {
    x.(c := x.c.(fs := files))
  }

  predicate Possible(w: World, h: Happening) {
    match h
    case Accept(id) => id !in w.conns
    case Dispatch(id, e) => id in w.conns && Enabled(w.conns[id], e)
    case _ => true
  }

  ghost function Next(w: World, envs: Places, h: Happening): World
    requires PlacesOk(envs) && Possible(w, h)
  {
    match h
    case Accept(id) => w.(conns := w.conns[id := NewConn(w.files)])
    case Dispatch(id, e) =>
      var (y, slots) := Step(Seen(w.conns[id], w.files), PlaceOf(w, envs, id), w.table.slots, e);
      World(w.conns[id := y], w.table.(slots := slots), y.c.fs)
    case AddUser(name, pass) => w.(table := Users.Add(w.table, name, pass).0)
    case DeleteUser(name) => w.(table := Users.Delete(w.table, name).0)
  }

  // ---------- the invariant ----------

  /** The name a live connection has claimed, or the empty string. */
  function HeldBy(x: Conn): string {
    if x.closed then "" else x.c.user
  }

  ghost predicate Held(w: World, name: string) {
    name != "" && exists id :: id in w.conns && HeldBy(w.conns[id]) == name
  }

  predicate Busy(slots: Users.Slots, name: string) {
    var st := Users.GetState(slots, name);
    st == Users.Logging || st == Users.Online
  }

  // One connection and the table: its name is taken, and in a session it is online.
  ghost predicate NameOk(x: Conn, slots: Users.Slots) {
    !x.closed ==>
      && (x.c.user != "" ==> Busy(slots, x.c.user))
      && (x.current == Some(TRANSACTION) || x.current == Some(UPDATE) ==>
            x.c.user != "" && Users.GetState(slots, x.c.user) == Users.Online)
      && (x.current == None ==> x.c.user == "")
  }

  /** No two live connections hold the same name. */
  ghost predicate Exclusive(conns: map<nat, Conn>) {
    forall i, j :: i in conns && j in conns && i != j && HeldBy(conns[i]) != "" ==> HeldBy(conns[i]) != HeldBy(conns[j])
  }

  ghost predicate EachOk(w: World, envs: Places) {
    forall id :: id in w.conns ==> ConnInv(w.conns[id], envs(id)) && NameOk(w.conns[id], w.table.slots)
  }

  ghost predicate Sound(w: World, envs: Places) {
    PlacesOk(envs) && EachOk(w, envs) && Exclusive(w.conns)
  }

  // The invariant of a connection speaks of neither its files nor its place.
  lemma SaneAnywhere(x: Conn, env: Env, files: Files, dir: string)
    requires ConnInv(x, env) && IsNewDir(dir)
    ensures ConnInv(Seen(x, files), env.(dir := dir))
  {
  }

  lemma SeenIsOk(w: World, envs: Places, id: nat)
    requires Sound(w, envs) && id in w.conns
    ensures var x := Seen(w.conns[id], w.files);
            ConnInv(x, PlaceOf(w, envs, id)) && NameOk(x, w.table.slots) && HeldBy(x) == HeldBy(w.conns[id])
  {
    SaneAnywhere(w.conns[id], envs(id), w.files, HomeOf(w.conns[id].c.user));
  }

  lemma SaneElsewhere(y: Conn, env: Env, dir: string)
    requires ConnInv(y, env) && IsNewDir(dir)
    ensures ConnInv(y, env.(dir := dir))
  {
    SaneAnywhere(y, env, y.c.fs, dir);
    assert Seen(y, y.c.fs) == y;
  }

  // ---------- what a connection does to the table ----------

  lemma StateAfterSet(slots: Users.Slots, name: string, st: Users.UserState, n: string)
    requires st != Users.NotFound
    ensures Users.GetState(Users.SetState(slots, name, st), n) ==
            if n == name && Users.Exists(slots, name) then st else Users.GetState(slots, n)
  {
    var r := Users.SetState(slots, name, st);
    Users.FirstIsFind(r, n, Users.Find(slots, n));
  }

  /** From holding `u` to holding `v`: a new name was free before and is taken now, a kept name stays taken, a
      dropped name is free again unless it is forgotten, and no third name changes. */
  ghost predicate Trades(u: string, slots: Users.Slots, v: string, after: Users.Slots, forgets: bool) {
    && (v != "" && v != u ==> Users.GetState(slots, v) == Users.Offline)
    && (v != "" ==> Busy(after, v))
    && (u != "" && v != u ==> (Busy(after, u) <==> forgets))
    && forall n :: n != u && n != v && n != "" ==> Users.GetState(after, n) == Users.GetState(slots, n)
  }

  ghost predicate MayTrade(u: string, slots: Users.Slots) {
    u != "" ==> Busy(slots, u)
  }

  lemma SettingTrades(slots: Users.Slots, name: string, st: Users.UserState)
    requires st != Users.NotFound
    ensures forall n :: Users.GetState(Users.SetState(slots, name, st), n) ==
                        if n == name && Users.Exists(slots, name) then st else Users.GetState(slots, n)
  {
    forall n {
      StateAfterSet(slots, name, st, n);
    }
  }

  // USER with a free name `v`, by a connection that holds `u` or, if that is empty, nothing.
  lemma SwapTrades(u: string, slots: Users.Slots, v: string)
    requires MayTrade(u, slots) && Users.Exists(slots, v) && Users.GetState(slots, v) == Users.Offline
    ensures var released := if u != "" then Users.SetState(slots, u, Users.Offline) else slots;
            Trades(u, slots, v, Users.SetState(released, v, Users.Logging), false)
  {
    SettingTrades(slots, u, Users.Offline);
    var released := if u != "" then Users.SetState(slots, u, Users.Offline) else slots;
    SettingTrades(released, v, Users.Logging);
  }

  lemma UserTrades(l: Login, slots: Users.Slots, name: string)
    requires MayTrade(l.user, slots)
    ensures var (r, after, _) := AuthUser(l, slots, name);
            Trades(l.user, slots, r.user, after, false) && r.next == AUTH
  {
    if Users.Exists(slots, name) && Users.GetState(slots, name) == Users.Offline {
      SwapTrades(l.user, slots, name);
    }
  }

  lemma PassTrades(l: Login, slots: Users.Slots, pass: string)
    requires MayTrade(l.user, slots)
    ensures var (r, after, _) := AuthPass(l, slots, pass);
            && Trades(l.user, slots, r.user, after, false)
            && (r.next == TRANSACTION ==> r.user != "" && Users.GetState(after, r.user) == Users.Online)
  {
    SettingTrades(slots, l.user, Users.Online);
    SettingTrades(slots, l.user, Users.Offline);
  }

  /** The one command that forgets a name is the unknown one; it drops whatever name is held. */
  lemma CommandTrades(l: Login, slots: Users.Slots, verb: AuthVerb, arg: string)
    requires MayTrade(l.user, slots) && l.err != BadChar
    ensures var (r, after, _) := AuthCommand(l, slots, verb, arg);
            && Trades(l.user, slots, r.user, after, verb == NoAuthVerb)
            && (verb == NoAuthVerb ==> r.user == "")
            && (r.next == TRANSACTION ==> r.user != "" && Users.GetState(after, r.user) == Users.Online)
  {
    match verb
    case UserA => UserTrades(l, slots, arg);
    case PassA => PassTrades(l, slots, arg);
    case _ =>
  }

  // The user and the table are settled by the command, the next state by it and the sending.
  lemma AuthAnswerShape(c: Client, slots: Users.Slots, m: nat)
    ensures var (p, after, ok) := ProcessCmd(c, slots);
            var (r, after2, to) := AuthAnswer(c, slots, m);
            && r.user == p.user && after2 == after && (to == TRANSACTION ==> p.next == TRANSACTION)
            && (p.next == AUTH ==> to == AUTH)
  {
  }

  /** A write event in AUTH, with nothing unsent, that meets a complete line with an unknown command. */
  predicate ForgetsIn(c: Client) {
    && c.out.content == [] && Consume(c).parser.ended
    && var cmd := Consume(c).parser.cmd;
    && cmd != "QUIT" && cmd != "USER" && cmd != "PASS" && cmd != "CAPA"
  }

  lemma AuthTrades(c: Client, slots: Users.Slots, m: nat)
    requires AuthInv(c) && c.interest == Write && MayTrade(c.user, slots)
    ensures var (r, after, to) := AuthProcess(c, slots, m);
            && Trades(c.user, slots, r.user, after, ForgetsIn(c))
            && (ForgetsIn(c) ==> r.user == "" && to == AUTH)
            && (to == TRANSACTION ==> r.user != "" && Users.GetState(after, r.user) == Users.Online)
  {
    NothingTrades(c.user, slots, ForgetsIn(c));
    if c.out.content == [] {
      ConsumeLeaves(c);
      var c1 := Consume(c);
      AuthAnswerShape(c1, slots, m);
      CommandTrades(Login(c.user, c.err, c.next), slots, AuthVerbOf(c1.parser.cmd), c1.parser.arg);
    }
  }

  // ---------- one event of one connection ----------

  // Closing a connection that has come to hold `v`.
  lemma ReleaseTrades(u: string, slots: Users.Slots, v: string, after: Users.Slots, forgets: bool)
    requires Trades(u, slots, v, after, forgets) && (v == u ==> !forgets)
    ensures Trades(u, slots, "", if v != "" then Users.SetState(after, v, Users.Offline) else after, forgets)
  {
    SettingTrades(after, v, Users.Offline);
  }

  lemma JumpKeepsUser(x: Conn, to: int)
    requires 0 <= to <= ERROR_POP3
    ensures var y := Jump(x, to); y.c.user == x.c.user && y.closed == x.closed && y.current == Some(to)
  {
  }

  lemma FinishShape(x: Conn, to: int, slots: Users.Slots)
    requires 0 <= to <= ERROR_POP3 && !x.closed
    ensures var (y, last) := Finish(x, to, slots);
            && y.c.user == x.c.user && y.current == Some(to)
            && (y.closed <==> to == DONE || to == ERROR_POP3)
            && last == if y.closed && x.c.user != "" then Users.SetState(slots, x.c.user, Users.Offline) else slots
  {
    JumpKeepsUser(x, to);
  }

  // The jump after a handler, and the release of the name if the connection closes.
  lemma FinishTrades(x: Conn, u: string, slots: Users.Slots, c: Client, after: Users.Slots, to: int, forgets: bool)
    requires Trades(u, slots, c.user, after, forgets) && !x.closed && 0 <= to <= ERROR_POP3
    requires c.user == u && (to == DONE || to == ERROR_POP3) ==> !forgets
    ensures var (y, last) := Finish(x.(c := c), to, after);
            && Trades(u, slots, HeldBy(y), last, forgets)
            && y.c.user == c.user && (y.closed <==> to == DONE || to == ERROR_POP3)
            && (!y.closed ==> last == after && y.current == Some(to))
  {
    FinishShape(x.(c := c), to, after);
    if to == DONE || to == ERROR_POP3 {
      ReleaseTrades(u, slots, c.user, after, forgets);
    }
  }

  lemma NothingTrades(u: string, slots: Users.Slots, forgets: bool)
    requires MayTrade(u, slots)
    ensures Trades(u, slots, u, slots, forgets)
  {
  }

  /** What can be seen before the event: it will drop a name without giving it back. */
  predicate Forgets(x: Conn, e: Event) {
    x.current == Some(AUTH) && e.Writable? && ForgetsIn(x.c)
  }

  ghost predicate GoodTrade(x: Conn, slots: Users.Slots, y: Conn, after: Users.Slots, forgets: bool) {
    && Trades(HeldBy(x), slots, HeldBy(y), after, forgets) && NameOk(y, after)
    && (forgets ==> HeldBy(y) == "")
  }

  lemma GreetingTrades(x: Conn, env: Env, slots: Users.Slots, m: nat)
    requires ConnInv(x, env) && NameOk(x, slots) && x.current == None && !x.closed
    ensures var (y, after) := OnWrite(x, env, slots, m); GoodTrade(x, slots, y, after, false)
  {
    var y := HandleFirst(x);
    var (c, to) := WriteGreeting(y.c, m);
    NothingTrades("", slots, false);
    FinishTrades(y, "", slots, c, slots, to, false);
  }

  lemma AuthWriteTrades(x: Conn, env: Env, slots: Users.Slots, m: nat)
    requires ConnInv(x, env) && NameOk(x, slots) && x.current == Some(AUTH) && Enabled(x, Writable(m))
    ensures var (y, after) := OnWrite(x, env, slots, m); GoodTrade(x, slots, y, after, ForgetsIn(x.c))
  {
    AuthStep(x.c, slots, m);
    AuthTrades(x.c, slots, m);
    var (c, after, to) := AuthProcess(x.c, slots, m);
    FinishTrades(x, x.c.user, slots, c, after, to, ForgetsIn(x.c));
  }

  lemma ReceiveKeepsUser(c: Client, r: Recv, stay: int)
    ensures var (n, to) := Receive(c, r, stay);
            n.user == c.user && (to == stay || to == DONE || to == ERROR_POP3)
  {
  }

  lemma ReadTrades(x: Conn, env: Env, slots: Users.Slots, r: Recv)
    requires x.current == Some(AUTH) || x.current == Some(TRANSACTION)
    requires !x.closed && NameOk(x, slots)
    ensures var (y, after) := OnRead(x, slots, r); GoodTrade(x, slots, y, after, false)
  {
    var (c, to) := Receive(x.c, r, x.current.value);
    ReceiveKeepsUser(x.c, r, x.current.value);
    NothingTrades(x.c.user, slots, false);
    FinishTrades(x, x.c.user, slots, c, slots, to, false);
  }

  lemma TransTrades(x: Conn, env: Env, slots: Users.Slots, m: nat)
    requires InSession(x, env) && x.current == Some(TRANSACTION) && NameOk(x, slots) && Enabled(x, Writable(m))
    ensures var (y, after) := OnWrite(x, env, slots, m); GoodTrade(x, slots, y, after, false)
  {
    NothingTrades(x.c.user, slots, false);
    TransStep(x.c, env, m, "");
    var (c, to) := TransProcess(x.c, env, m);
    FinishTrades(x, x.c.user, slots, c, slots, to, false);
  }

  lemma UpdateTrades(x: Conn, env: Env, slots: Users.Slots, m: nat)
    requires !x.closed && IsNewDir(env.dir) && x.current == Some(UPDATE) && NameOk(x, slots)
    ensures var (y, after) := OnWrite(x, env, slots, m); GoodTrade(x, slots, y, after, false)
  {
    NothingTrades(x.c.user, slots, false);
    FinishTrades(x, x.c.user, slots, UpdateProcess(x.c, env, m).0, slots, DONE, false);
  }

  /** Any event of a sound connection. */
  lemma EventTrades(x: Conn, env: Env, slots: Users.Slots, e: Event)
    requires ConnInv(x, env) && NameOk(x, slots) && Enabled(x, e)
    ensures var (y, after) := Step(x, env, slots, e); GoodTrade(x, slots, y, after, Forgets(x, e))
  {
    match e
    case Readable(r) =>
      ReadTrades(x, env, slots, r);
    case Writable(m) =>
      if x.current == None {
        GreetingTrades(x, env, slots, m);
      } else if x.current == Some(AUTH) {
        AuthWriteTrades(x, env, slots, m);
      } else if x.current == Some(TRANSACTION) {
        TransTrades(x, env, slots, m);
      } else {
        UpdateTrades(x, env, slots, m);
      }
    case PipeReadable(k) =>
      NothingTrades(x.c.user, slots, false);
  }

  /** A name its connection no longer holds is free again, unless the event is one that forgets. */
  lemma DroppedIsFreeIff(x: Conn, env: Env, slots: Users.Slots, e: Event)
    requires ConnInv(x, env) && NameOk(x, slots) && Enabled(x, e) && HeldBy(x) != ""
    ensures var (y, after) := Step(x, env, slots, e);
            && (HeldBy(y) != HeldBy(x) ==> (Busy(after, HeldBy(x)) <==> Forgets(x, e)))
            && (Forgets(x, e) ==> HeldBy(y) == "")
  {
    EventTrades(x, env, slots, e);
  }

  // ---------- the table's own operations ----------

  /** What a caller of user_add can check beforehand: the name is there, behind a free slot. */
  predicate Overlooks(t: Users.Table, name: string) {
    t.total != Users.MAX_USERS && Users.Find(t.slots, "") < Users.Find(t.slots, name) < |t.slots|
  }

  lemma AddKeepsOthers(t: Users.Table, name: string, pass: string, n: string)
    requires n != "" && n != name
    ensures Users.GetState(Users.Add(t, name, pass).0.slots, n) == Users.GetState(t.slots, n)
  {
    var free := Users.Find(t.slots, "");
    var k := Users.Find(t.slots, n);
    var after := Users.Add(t, name, pass).0.slots;
    assert forall j :: 0 <= j < |t.slots| && j != free ==> after[j] == t.slots[j];
    Users.FirstIsFind(after, n, k);
  }

  lemma DeleteKeepsOthers(t: Users.Table, name: string, n: string)
    requires n != "" && n != name
    ensures Users.GetState(Users.Delete(t, name).0.slots, n) == Users.GetState(t.slots, n)
  {
    var after := Users.Delete(t, name).0.slots;
    var k := Users.Find(t.slots, n);
    assert forall j :: 0 <= j < |t.slots| && j != Users.Find(t.slots, name) ==> after[j] == t.slots[j];
    Users.FirstIsFind(after, n, k);
  }

  /** A name that somebody holds cannot be deleted, and adding it again changes nothing unless its slot
      is overlooked; then the name reads as offline. */
  lemma BusyNames(t: Users.Table, name: string, pass: string)
    requires name != "" && Busy(t.slots, name)
    ensures Users.Delete(t, name) == (t, -2)
    ensures !Overlooks(t, name) ==> Users.Add(t, name, pass).0 == t && Users.Add(t, name, pass).1 != 0
    ensures Overlooks(t, name) ==> Users.GetState(Users.Add(t, name, pass).0.slots, name) == Users.Offline
  {
    var free := Users.Find(t.slots, "");
    if Overlooks(t, name) {
      Users.FirstIsFind(t.slots[free := Users.Slot(name, pass, Users.Offline)], name, free);
    }
  }

  // ---------- every step of the world ----------

  lemma OthersKeep(x: Conn, slots: Users.Slots, after: Users.Slots)
    requires NameOk(x, slots)
    requires x.c.user != "" && !x.closed ==> Users.GetState(after, x.c.user) == Users.GetState(slots, x.c.user)
    ensures NameOk(x, after)
  {
  }

  // A connection other than the one that traded.
  lemma BystanderKeeps(x: Conn, u: string, slots: Users.Slots, v: string, after: Users.Slots, forgets: bool)
    requires NameOk(x, slots) && Trades(u, slots, v, after, forgets) && (u != "" ==> HeldBy(x) != u)
    ensures NameOk(x, after) && (v != "" ==> HeldBy(x) != v)
  {
    OthersKeep(x, slots, after);
  }

  lemma TradeKeepsExclusive(conns: map<nat, Conn>, id: nat, y: Conn)
    requires Exclusive(conns) && id in conns
    requires forall j :: j in conns && j != id && HeldBy(y) != "" ==> HeldBy(conns[j]) != HeldBy(y)
    ensures Exclusive(conns[id := y])
  {
  }

  // One connection has traded.
  lemma TradeKeepsSound(w: World, envs: Places, id: nat, y: Conn, after: Users.Slots, files: Files, forgets: bool)
    requires Sound(w, envs) && id in w.conns && ConnInv(y, envs(id)) && NameOk(y, after)
    requires Trades(HeldBy(w.conns[id]), w.table.slots, HeldBy(y), after, forgets)
    ensures Sound(World(w.conns[id := y], w.table.(slots := after), files), envs)
  {
    forall j | j in w.conns && j != id
      ensures NameOk(w.conns[j], after) && (HeldBy(y) != "" ==> HeldBy(w.conns[j]) != HeldBy(y))
    {
      BystanderKeeps(w.conns[j], HeldBy(w.conns[id]), w.table.slots, HeldBy(y), after, forgets);
    }
    TradeKeepsExclusive(w.conns, id, y);
  }

  lemma DispatchKeepsSound(w: World, envs: Places, id: nat, e: Event)
    requires Sound(w, envs) && Possible(w, Dispatch(id, e))
    ensures Sound(Next(w, envs, Dispatch(id, e)), envs)
  {
    var x, place := Seen(w.conns[id], w.files), PlaceOf(w, envs, id);
    SeenIsOk(w, envs, id);
    LifeStep(x, place, w.table.slots, e);
    EventTrades(x, place, w.table.slots, e);
    var (y, after) := Step(x, place, w.table.slots, e);
    SaneElsewhere(y, place, envs(id).dir);
    assert place.(dir := envs(id).dir) == envs(id);
    TradeKeepsSound(w, envs, id, y, after, y.c.fs, Forgets(x, e));
  }

  lemma TableKeepsSound(w: World, envs: Places, after: Users.Table)
    requires Sound(w, envs)
    requires forall id :: id in w.conns && HeldBy(w.conns[id]) != "" ==>
               Users.GetState(after.slots, w.conns[id].c.user) == Users.GetState(w.table.slots, w.conns[id].c.user)
    ensures Sound(w.(table := after), envs)
  {
    forall id | id in w.conns ensures NameOk(w.conns[id], after.slots) {
      OthersKeep(w.conns[id], w.table.slots, after.slots);
    }
  }

  lemma AddKeepsSound(w: World, envs: Places, name: string, pass: string)
    requires Sound(w, envs) && !(Held(w, name) && Overlooks(w.table, name))
    ensures Sound(Next(w, envs, AddUser(name, pass)), envs)
  {
    var after := Users.Add(w.table, name, pass).0;
    forall id | id in w.conns && HeldBy(w.conns[id]) != ""
      ensures Users.GetState(after.slots, w.conns[id].c.user) == Users.GetState(w.table.slots, w.conns[id].c.user)
    {
      var n := w.conns[id].c.user;
      if n == name {
        assert Held(w, name);
        BusyNames(w.table, name, pass);
      } else {
        AddKeepsOthers(w.table, name, pass, n);
      }
    }
    TableKeepsSound(w, envs, after);
  }

  lemma DeleteKeepsSound(w: World, envs: Places, name: string)
    requires Sound(w, envs)
    ensures Sound(Next(w, envs, DeleteUser(name)), envs)
  {
    var after := Users.Delete(w.table, name).0;
    forall id | id in w.conns && HeldBy(w.conns[id]) != ""
      ensures Users.GetState(after.slots, w.conns[id].c.user) == Users.GetState(w.table.slots, w.conns[id].c.user)
    {
      var n := w.conns[id].c.user;
      if n == name {
        BusyNames(w.table, name, "");
      } else {
        DeleteKeepsOthers(w.table, name, n);
      }
    }
    TableKeepsSound(w, envs, after);
  }

  /** The one thing that breaks exclusion: adding, over a free slot, a name that somebody holds. */
  ghost predicate Breaks(w: World, h: Happening) {
    h.AddUser? && Held(w, h.name) && Overlooks(w.table, h.name)
  }

  lemma AddBreaks(w: World, envs: Places, name: string, pass: string)
    requires Sound(w, envs) && Held(w, name) && Overlooks(w.table, name)
    ensures !Sound(Next(w, envs, AddUser(name, pass)), envs)
  {
    var id :| id in w.conns && HeldBy(w.conns[id]) == name;
    BusyNames(w.table, name, pass);
    assert !NameOk(w.conns[id], Next(w, envs, AddUser(name, pass)).table.slots);
  }

  lemma AddIsSoundIff(w: World, envs: Places, name: string, pass: string)
    requires Sound(w, envs)
    ensures Sound(Next(w, envs, AddUser(name, pass)), envs) <==> !(Held(w, name) && Overlooks(w.table, name))
  {
    if Held(w, name) && Overlooks(w.table, name) {
      AddBreaks(w, envs, name, pass);
    } else {
      AddKeepsSound(w, envs, name, pass);
    }
  }

  lemma NewConnIsOk(files: Files, env: Env, slots: Users.Slots)
    requires EnvOk(env)
    ensures var x := NewConn(files); ConnInv(x, env) && NameOk(x, slots) && HeldBy(x) == ""
  {
  }

  lemma AcceptKeepsSound(w: World, envs: Places, id: nat)
    requires Sound(w, envs) && id !in w.conns
    ensures Sound(Next(w, envs, Accept(id)), envs)
  {
    NewConnIsOk(w.files, envs(id), w.table.slots);
  }

  lemma SoundStep(w: World, envs: Places, h: Happening)
    requires Sound(w, envs) && Possible(w, h)
    ensures Sound(Next(w, envs, h), envs) <==> !Breaks(w, h)
  {
    match h
    case Accept(id) => AcceptKeepsSound(w, envs, id);
    case Dispatch(id, e) => DispatchKeepsSound(w, envs, id, e);
    case DeleteUser(name) => DeleteKeepsSound(w, envs, name);
    case AddUser(name, pass) => AddIsSoundIff(w, envs, name, pass);
  }

  // ---------- every run of the world ----------

  ghost predicate History(w: World, envs: Places, run: seq<Happening>)
    requires PlacesOk(envs)
    decreases |run|
  {
    run != [] ==> Possible(w, run[0]) && !Breaks(w, run[0]) && History(Next(w, envs, run[0]), envs, run[1..])
  }

  ghost function Final(w: World, envs: Places, run: seq<Happening>): World
    requires PlacesOk(envs) && History(w, envs, run)
    decreases |run|
  {
    if run == [] then w else Final(Next(w, envs, run[0]), envs, run[1..])
  }

  lemma {:induction false} SoundForever(w: World, envs: Places, run: seq<Happening>)
    requires Sound(w, envs) && History(w, envs, run)
    ensures Sound(Final(w, envs, run), envs)
    decreases |run|
  {
    if run != [] {
      SoundStep(w, envs, run[0]);
      SoundForever(Next(w, envs, run[0]), envs, run[1..]);
    }
  }

  /** A live connection that has given a name and password. */
  predicate InMaildrop(x: Conn) {
    !x.closed && (x.current == Some(TRANSACTION) || x.current == Some(UPDATE))
  }

  /** Exclusive access, from a world without connections on: sessions that are open at the same time have
      different users, every such user is online, and no name in use can be deleted. */
  lemma ExclusiveAccess(table: Users.Table, files: Files, envs: Places, run: seq<Happening>, i: nat, j: nat)
    requires PlacesOk(envs) && History(World(map[], table, files), envs, run)
    requires var w := Final(World(map[], table, files), envs, run); i in w.conns && j in w.conns
    ensures var w := Final(World(map[], table, files), envs, run);
            var x, y := w.conns[i], w.conns[j];
            && (i != j && HeldBy(x) != "" ==> HeldBy(x) != HeldBy(y))
            && (InMaildrop(x) ==> HeldBy(x) != "" && Users.GetState(w.table.slots, HeldBy(x)) == Users.Online)
            && (HeldBy(x) != "" ==> Users.Delete(w.table, HeldBy(x)) == (w.table, -2))
  {
    SoundForever(World(map[], table, files), envs, run);
    var w := Final(World(map[], table, files), envs, run);
    assert ConnInv(w.conns[i], envs(i)) && NameOk(w.conns[i], w.table.slots);
    if HeldBy(w.conns[i]) != "" {
      BusyNames(w.table, HeldBy(w.conns[i]), "");
    }
  }

  // ---------- when the rule is broken ----------

  // USER with a free name, whatever the peer takes of the reply.
  lemma UserStays(c: Client, slots: Users.Slots, m: nat)
    requires c.parser.cmd == "USER" && Users.GetState(slots, c.parser.arg) == Users.Offline
    ensures var (r, after, to) := AuthAnswer(c, slots, m);
            && to == AUTH && r.user == c.parser.arg
            && after == AuthUser(Login(c.user, c.err, c.next), slots, c.parser.arg).1
  {
    AuthAnswerShape(c, slots, m);
  }

  /** A connection in AUTH with nothing unsent and a complete USER line for a name that reads as offline. */
  ghost predicate AsksFor(x: Conn, env: Env, name: string) {
    && ConnInv(x, env) && !x.closed && x.current == Some(AUTH)
    && x.c.interest == Write && x.c.out.content == []
    && var p := Consume(x.c).parser;
    && p.ended && p.cmd == "USER" && p.arg == name
  }

  lemma UserClaims(x: Conn, env: Env, slots: Users.Slots, name: string, m: nat)
    requires AsksFor(x, env, name) && Users.GetState(slots, name) == Users.Offline
    ensures var (y, after) := OnWrite(x, env, slots, m);
            && !y.closed && y.c.user == name
            && after == AuthUser(Login(x.c.user, x.c.err, x.c.next), slots, name).1
  {
    ConsumeLeaves(x.c);
    UserStays(Consume(x.c), slots, m);
  }

  lemma AsksAnywhere(x: Conn, env: Env, files: Files, dir: string, name: string)
    requires AsksFor(x, env, name) && IsNewDir(dir)
    ensures AsksFor(Seen(x, files), env.(dir := dir), name)
  {
    SaneAnywhere(x, env, files, dir);
  }

  lemma DispatchClaims(w: World, envs: Places, j: nat, name: string, m: nat)
    requires PlacesOk(envs) && j in w.conns && AsksFor(w.conns[j], envs(j), name)
    requires Users.GetState(w.table.slots, name) == Users.Offline
    ensures Possible(w, Dispatch(j, Writable(m)))
    ensures var z := Next(w, envs, Dispatch(j, Writable(m)));
            && j in z.conns && HeldBy(z.conns[j]) == name && z.conns == w.conns[j := z.conns[j]]
            && var l := Login(w.conns[j].c.user, w.conns[j].c.err, w.conns[j].c.next);
            z.table == w.table.(slots := AuthUser(l, w.table.slots, name).1)
  {
    AsksAnywhere(w.conns[j], envs(j), w.files, HomeOf(w.conns[j].c.user), name);
    UserClaims(Seen(w.conns[j], w.files), PlaceOf(w, envs, j), w.table.slots, name, m);
  }

  // The second connection is given the name once it reads as offline.
  lemma SharedByTwo(w: World, envs: Places, name: string, i: nat, j: nat, m: nat)
    requires PlacesOk(envs) && i in w.conns && HeldBy(w.conns[i]) == name && name != ""
    requires j in w.conns && j != i && AsksFor(w.conns[j], envs(j), name)
    requires Users.GetState(w.table.slots, name) == Users.Offline
    ensures Possible(w, Dispatch(j, Writable(m)))
    ensures var z := Next(w, envs, Dispatch(j, Writable(m)));
            && i in z.conns && HeldBy(z.conns[i]) == name && j in z.conns && HeldBy(z.conns[j]) == name
            && !Exclusive(z.conns)
  {
    DispatchClaims(w, envs, j, name, m);
  }

  /** The break is real. Whenever a held name is overlooked, adding it again lets every other connection that asks
      for it have it too: two live connections hold the same name. */
  lemma OverlookedNameIsSharedOut(w: World, envs: Places, name: string, pass: string, i: nat, j: nat, m: nat)
    requires Sound(w, envs) && i in w.conns && HeldBy(w.conns[i]) == name && name != ""
    requires Overlooks(w.table, name)
    requires j in w.conns && j != i && AsksFor(w.conns[j], envs(j), name)
    ensures var w1 := Next(w, envs, AddUser(name, pass));
            && Possible(w1, Dispatch(j, Writable(m)))
            && var w2 := Next(w1, envs, Dispatch(j, Writable(m)));
            && i in w2.conns && HeldBy(w2.conns[i]) == name && j in w2.conns && HeldBy(w2.conns[j]) == name
            && !Exclusive(w2.conns)
  {
    assert NameOk(w.conns[i], w.table.slots);
    BusyNames(w.table, name, pass);
    SharedByTwo(Next(w, envs, AddUser(name, pass)), envs, name, i, j, m);
  }

  // ---------- a history that breaks the rule ----------

  ghost predicate Feasible(w: World, envs: Places, run: seq<Happening>)
    requires PlacesOk(envs)
    decreases |run|
  {
    run != [] ==> Possible(w, run[0]) && Feasible(Next(w, envs, run[0]), envs, run[1..])
  }

  ghost function Reached(w: World, envs: Places, run: seq<Happening>): World
    requires PlacesOk(envs) && Feasible(w, envs, run)
    decreases |run|
  {
    if run == [] then w else Reached(Next(w, envs, run[0]), envs, run[1..])
  }

  lemma {:induction false} OneAfterAnother(w: World, envs: Places, a: seq<Happening>, b: seq<Happening>)
    requires PlacesOk(envs) && Feasible(w, envs, a) && Feasible(Reached(w, envs, a), envs, b)
    ensures Feasible(w, envs, a + b) && Reached(w, envs, a + b) == Reached(Reached(w, envs, a), envs, b)
    decreases |a|
  {
    if a == [] {
      assert a + b == b;
    } else {
      assert (a + b)[1..] == a[1..] + b;
      OneAfterAnother(Next(w, envs, a[0]), envs, a[1..], b);
    }
  }

  const USER_ANN: string := "USER ann\r\n"

  lemma UserAnnIsLine()
    ensures Complete(USER_ANN) && Body(USER_ANN) == "USER ann"
  {
    var s := USER_ANN;
    assert s[8] == CR && s[9] == LF;
    assert forall k :: 0 <= k < 8 ==> s[k] != CR && s[k] != LF;
    assert LineEnd(s) == 8;
  }

  lemma UserAnnSplits()
    ensures Head("USER ann") == "USER" && Tail("USER ann") == "ann"
  {
    var s := "USER ann";
    assert s[4] == ' ';
    assert forall k :: 0 <= k < 4 ==> s[k] != ' ';
    assert IndexOf(s, ' ') == 4;
  }

  lemma UserAnnIsKept()
    ensures CmdOf(Pop3, "USER ann") == "USER" && ArgOf("USER ann") == "ann"
  {
    UserAnnSplits();
    KeepAll("USER", IsAlpha);
    KeepAll("ann", IsPrint);
  }

  lemma LineParses(s: string, cmd: string, arg: string)
    requires Complete(s) && CmdOf(Pop3, Body(s)) == cmd && ArgOf(Body(s)) == arg && |arg| <= MAX_ARG_LEN
    ensures var q := Feed(Pop3, INIT_P, s).0; q.ended && q.cmd == cmd && q.arg == arg
  {
    FeedIsGrammar(Pop3, s);
  }

  lemma UserAnnParses()
    ensures var q := Feed(Pop3, INIT_P, USER_ANN).0;
            q.ended && q.cmd == "USER" && q.arg == "ann"
  {
    UserAnnIsLine();
    UserAnnIsKept();
    LineParses(USER_ANN, "USER", "ann");
  }

  /** A newcomer is greeted and says USER ann. */
  function Visit(id: nat): seq<Happening> {
    [Accept(id), Dispatch(id, Writable(|GREETING|)), Dispatch(id, Readable(Got(USER_ANN))),
     Dispatch(id, Writable(MAX_REPLY))]
  }

  // A greeted newcomer is read from, and the table is as it was.
  lemma NewcomerIsGreeted(files: Files, env: Env, slots: Users.Slots)
    requires EnvOk(env)
    ensures var (x, after) := OnWrite(NewConn(files), env, slots, |GREETING|);
            && after == slots && Talking(x, env) && x.c.interest == Read && x.c.user == ""
            && x.c.parser == INIT_P && x.c.inp == EmptyBuf(BUFFER_SIZE) && x.c.fs == files
  {
    GreetingStep(NewConn(files), env, slots, |GREETING|);
    GreetingOpens(files, env, slots, |GREETING|);
  }

  lemma LineIsReceived(c: Client)
    requires c.finished && c.inp == EmptyBuf(BUFFER_SIZE)
    ensures Receive(c, Got(USER_ANN), AUTH) == (c.(inp := Buf(BUFFER_SIZE, 0, USER_ANN), interest := Write), AUTH)
  {
    assert Take(USER_ANN, BUFFER_SIZE) == USER_ANN;
    assert [] + USER_ANN == USER_ANN;
  }

  // What a connection makes of a USER line received in one piece.
  lemma NewcomerSpeaks(x: Conn, env: Env, slots: Users.Slots)
    requires Talking(x, env) && x.c.interest == Read && x.c.parser == INIT_P && x.c.inp == EmptyBuf(BUFFER_SIZE)
    ensures Enabled(x, Readable(Got(USER_ANN)))
    ensures var (y, after) := OnRead(x, slots, Got(USER_ANN));
            after == slots && AsksFor(y, env, "ann") && y.c.user == x.c.user && y.c.fs == x.c.fs
  {
    assert AllLegal(USER_ANN);
    AuthReadStep(x, env, slots, Got(USER_ANN));
    LineIsReceived(x.c);
    UserAnnParses();
  }

  // A run of four happenings, one by one.
  lemma FourSteps(w: World, envs: Places, run: seq<Happening>)
    requires PlacesOk(envs) && |run| == 4 && Possible(w, run[0])
    requires Possible(Next(w, envs, run[0]), run[1])
    requires Possible(Next(Next(w, envs, run[0]), envs, run[1]), run[2])
    requires Possible(Next(Next(Next(w, envs, run[0]), envs, run[1]), envs, run[2]), run[3])
    ensures Feasible(w, envs, run)
    ensures Reached(w, envs, run) ==
            Next(Next(Next(Next(w, envs, run[0]), envs, run[1]), envs, run[2]), envs, run[3])
  {
    var w2 := Next(Next(w, envs, run[0]), envs, run[1]);
    TwoSteps(w, envs, run[0], run[1]);
    TwoSteps(w2, envs, run[2], run[3]);
    OneAfterAnother(w, envs, [run[0], run[1]], [run[2], run[3]]);
    assert run == [run[0], run[1]] + [run[2], run[3]];
  }

  // A newcomer that is greeted.
  lemma VisitGreeted(w: World, envs: Places, id: nat, x: Conn)
    requires PlacesOk(envs) && id !in w.conns
    requires x == OnWrite(NewConn(w.files), envs(id).(dir := HomeOf("")), w.table.slots, |GREETING|).0
    ensures var w1 := Next(w, envs, Accept(id));
            && Possible(w1, Dispatch(id, Writable(|GREETING|)))
            && Next(w1, envs, Dispatch(id, Writable(|GREETING|))) == World(w.conns[id := x], w.table, w.files)
            && x.c.user == ""
  {
    NewcomerIsGreeted(w.files, envs(id).(dir := HomeOf("")), w.table.slots);
    assert Seen(NewConn(w.files), w.files) == NewConn(w.files);
    assert w.conns[id := NewConn(w.files)][id := x] == w.conns[id := x];
  }

  // And that says who it is.
  lemma VisitSpoken(w: World, envs: Places, id: nat, x: Conn)
    requires PlacesOk(envs) && x.c.fs == w.files && x.c.user == ""
    requires Talking(x, envs(id).(dir := HomeOf("")))
    requires x.c.interest == Read && x.c.parser == INIT_P && x.c.inp == EmptyBuf(BUFFER_SIZE)
    ensures var w2 := World(w.conns[id := x], w.table, w.files);
            && Possible(w2, Dispatch(id, Readable(Got(USER_ANN))))
            && var w3 := Next(w2, envs, Dispatch(id, Readable(Got(USER_ANN))));
            && id in w3.conns && w3 == World(w.conns[id := w3.conns[id]], w.table, w.files)
            && AsksFor(w3.conns[id], envs(id), "ann") && w3.conns[id].c.user == ""
  {
    var place := envs(id).(dir := HomeOf(""));
    NewcomerSpeaks(x, place, w.table.slots);
    var y := OnRead(x, w.table.slots, Got(USER_ANN)).0;
    assert Seen(x, w.files) == x && Seen(y, w.files) == y;
    assert w.conns[id := x][id := y] == w.conns[id := y];
    AsksAnywhere(y, place, w.files, envs(id).dir, "ann");
    assert place.(dir := envs(id).dir) == envs(id);
  }

  // The visit up to the USER line.
  lemma VisitAsks(w: World, envs: Places, id: nat)
    requires PlacesOk(envs) && id !in w.conns
    ensures var v := Visit(id);
            var w1 := Next(w, envs, v[0]);
            && Possible(w1, v[1])
            && var w2 := Next(w1, envs, v[1]);
            && Possible(w2, v[2])
            && var w3 := Next(w2, envs, v[2]);
            && id in w3.conns && w3 == World(w.conns[id := w3.conns[id]], w.table, w.files)
            && AsksFor(w3.conns[id], envs(id), "ann") && w3.conns[id].c.user == ""
  {
    var place := envs(id).(dir := HomeOf(""));
    var x := OnWrite(NewConn(w.files), place, w.table.slots, |GREETING|).0;
    NewcomerIsGreeted(w.files, place, w.table.slots);
    VisitGreeted(w, envs, id, x);
    VisitSpoken(w, envs, id, x);
  }

  // A newcomer's USER leaves the table with one name more in use.
  lemma NewcomerIsGiven(slots: Users.Slots, err: ErrCode, next: int, name: string)
    requires Users.GetState(slots, name) == Users.Offline
    ensures AuthUser(Login("", err, next), slots, name).1 == Users.SetState(slots, name, Users.Logging)
  {
  }

  // The answer to it.
  lemma VisitAnswered(w: World, envs: Places, id: nat, x: Conn)
    requires PlacesOk(envs) && Users.GetState(w.table.slots, "ann") == Users.Offline
    requires AsksFor(x, envs(id), "ann") && x.c.user == ""
    ensures var w3 := World(w.conns[id := x], w.table, w.files);
            && Possible(w3, Dispatch(id, Writable(MAX_REPLY)))
            && var z := Next(w3, envs, Dispatch(id, Writable(MAX_REPLY)));
            && id in z.conns && HeldBy(z.conns[id]) == "ann" && z.conns == w.conns[id := z.conns[id]]
            && z.table == w.table.(slots := Users.SetState(w.table.slots, "ann", Users.Logging))
  {
    var w3 := World(w.conns[id := x], w.table, w.files);
    DispatchClaims(w3, envs, id, "ann", MAX_REPLY);
    NewcomerIsGiven(w.table.slots, x.c.err, x.c.next, "ann");
    var z := Next(w3, envs, Dispatch(id, Writable(MAX_REPLY)));
    assert w.conns[id := x][id := z.conns[id]] == w.conns[id := z.conns[id]];
  }

  lemma VisitClaims(w: World, envs: Places, id: nat)
    requires PlacesOk(envs) && id !in w.conns && Users.GetState(w.table.slots, "ann") == Users.Offline
    ensures Feasible(w, envs, Visit(id))
    ensures var z := Reached(w, envs, Visit(id));
            && id in z.conns && HeldBy(z.conns[id]) == "ann" && z.conns == w.conns[id := z.conns[id]]
            && z.table == w.table.(slots := Users.SetState(w.table.slots, "ann", Users.Logging))
  {
    var v := Visit(id);
    VisitAsks(w, envs, id);
    var w3 := Next(Next(Next(w, envs, v[0]), envs, v[1]), envs, v[2]);
    VisitAnswered(w, envs, id, w3.conns[id]);
    FourSteps(w, envs, v);
  }

  lemma OneStep(w: World, envs: Places, h: Happening)
    requires PlacesOk(envs) && Possible(w, h)
    ensures Feasible(w, envs, [h]) && Reached(w, envs, [h]) == Next(w, envs, h)
  {
    assert [h][1..] == [];
    var w1 := Next(w, envs, h);
    assert Feasible(w1, envs, []) && Reached(w1, envs, []) == w1;
  }

  lemma TwoSteps(w: World, envs: Places, a: Happening, b: Happening)
    requires PlacesOk(envs) && Possible(w, a) && Possible(Next(w, envs, a), b)
    ensures Feasible(w, envs, [a, b]) && Reached(w, envs, [a, b]) == Next(Next(w, envs, a), envs, b)
  {
    OneStep(w, envs, a);
    OneStep(Next(w, envs, a), envs, b);
    OneAfterAnother(w, envs, [a], [b]);
    assert [a, b] == [a] + [b];
  }

  function EmptyTable(): Users.Table {
    Users.Table(seq(Users.MAX_USERS, i => Users.FREE_SLOT), 0)
  }

  // One name in the first slot, another in the second.
  function TwoNames(p: string, q: string): Users.Table {
    Users.Add(Users.Add(EmptyTable(), p, "x").0, q, "y").0
  }

  // An addition to a table that is free from slot `k` on.
  lemma AddedAt(t: Users.Table, k: nat, name: string, pass: string)
    requires k < |t.slots| && t.total != Users.MAX_USERS && name != ""
    requires forall j :: 0 <= j < k ==> t.slots[j].name != "" && t.slots[j].name != name
    requires t.slots[k] == Users.FREE_SLOT && Users.Find(t.slots, name) > k
    ensures Users.Add(t, name, pass) ==
            (Users.Table(t.slots[k := Users.Slot(name, pass, Users.Offline)], t.total + 1), 0)
  {
    Users.FirstIsFind(t.slots, "", k);
  }

  lemma FirstName(p: string)
    requires p != ""
    ensures Users.Add(EmptyTable(), p, "x").0 ==
            Users.Table(EmptyTable().slots[0 := Users.Slot(p, "x", Users.Offline)], 1)
  {
    Users.FirstIsFind(EmptyTable().slots, p, Users.MAX_USERS);
    AddedAt(EmptyTable(), 0, p, "x");
  }

  lemma SecondName(p: string, q: string)
    requires p != "" && q != "" && p != q
    ensures var t := TwoNames(p, q);
            && |t.slots| == Users.MAX_USERS && t.total == 2
            && t.slots[0] == Users.Slot(p, "x", Users.Offline) && t.slots[1] == Users.Slot(q, "y", Users.Offline)
            && Users.GetState(t.slots, q) == Users.Offline
  {
    FirstName(p);
    var one := Users.Add(EmptyTable(), p, "x").0;
    Users.FirstIsFind(one.slots, q, Users.MAX_USERS);
    AddedAt(one, 1, q, "y");
    Users.FirstIsFind(TwoNames(p, q).slots, q, 1);
  }

  // The second name is claimed, the first one deleted, and the second one added again: over the free slot.
  lemma SecondNameIsOverlooked(p: string, q: string)
    requires p != "" && q != "" && p != q
    ensures var t := TwoNames(p, q);
            var claimed := t.(slots := Users.SetState(t.slots, q, Users.Logging));
            Users.GetState(Users.Add(Users.Delete(claimed, p).0, q, "z").0.slots, q) == Users.Offline
  {
    SecondName(p, q);
    var t := TwoNames(p, q);
    var claimed := t.(slots := Users.SetState(t.slots, q, Users.Logging));
    Users.FirstIsFind(claimed.slots, p, 0);
    var alone := Users.Delete(claimed, p).0;
    Users.FirstIsFind(alone.slots, "", 0);
    Users.FirstIsFind(Users.Add(alone, q, "z").0.slots, q, 0);
  }

  function FirstHalf(): seq<Happening> {
    [AddUser("bob", "x"), AddUser("ann", "y")] + Visit(0)
  }

  function SecondHalf(): seq<Happening> {
    [DeleteUser("bob"), AddUser("ann", "z")] + Visit(1)
  }

  function AnnClaimed(): Users.Table {
    var t := TwoNames("bob", "ann");
    t.(slots := Users.SetState(t.slots, "ann", Users.Logging))
  }

  lemma BobAndAnnAdded(w: World, envs: Places)
    requires PlacesOk(envs) && w.table == EmptyTable()
    ensures var run := [AddUser("bob", "x"), AddUser("ann", "y")];
            && Feasible(w, envs, run)
            && Reached(w, envs, run) == w.(table := TwoNames("bob", "ann"))
            && Users.GetState(TwoNames("bob", "ann").slots, "ann") == Users.Offline
  {
    TwoSteps(w, envs, AddUser("bob", "x"), AddUser("ann", "y"));
    SecondName("bob", "ann");
  }

  lemma AnnIsHeldOnce(envs: Places, files: Files)
    requires PlacesOk(envs)
    ensures var w := World(map[], EmptyTable(), files);
            && Feasible(w, envs, FirstHalf())
            && var z := Reached(w, envs, FirstHalf());
            && 0 in z.conns && 1 !in z.conns && HeldBy(z.conns[0]) == "ann" && z.table == AnnClaimed()
  {
    var w := World(map[], EmptyTable(), files);
    var run := [AddUser("bob", "x"), AddUser("ann", "y")];
    BobAndAnnAdded(w, envs);
    VisitClaims(Reached(w, envs, run), envs, 0);
    OneAfterAnother(w, envs, run, Visit(0));
  }

  lemma AnnIsOverlooked(w: World, envs: Places)
    requires PlacesOk(envs) && w.table == AnnClaimed()
    ensures var run := [DeleteUser("bob"), AddUser("ann", "z")];
            && Feasible(w, envs, run)
            && var z := Reached(w, envs, run);
            z.conns == w.conns && Users.GetState(z.table.slots, "ann") == Users.Offline
  {
    TwoSteps(w, envs, DeleteUser("bob"), AddUser("ann", "z"));
    SecondNameIsOverlooked("bob", "ann");
  }

  lemma AnnIsHeldAgain(w: World, envs: Places)
    requires PlacesOk(envs) && w.table == AnnClaimed()
    requires 0 in w.conns && 1 !in w.conns && HeldBy(w.conns[0]) == "ann"
    ensures Feasible(w, envs, SecondHalf())
    ensures var z := Reached(w, envs, SecondHalf());
            && 0 in z.conns && 1 in z.conns && HeldBy(z.conns[0]) == "ann" && HeldBy(z.conns[1]) == "ann"
  {
    var run := [DeleteUser("bob"), AddUser("ann", "z")];
    AnnIsOverlooked(w, envs);
    VisitClaims(Reached(w, envs, run), envs, 1);
    OneAfterAnother(w, envs, run, Visit(1));
  }

  /** A history from the empty server after which two live connections hold the same name: bob and ann are added,
      ann is claimed, bob is deleted, ann is added again and claimed again. */
  lemma AnnIsHeldTwice(envs: Places, files: Files)
    requires PlacesOk(envs)
    ensures var w, run := World(map[], EmptyTable(), files), FirstHalf() + SecondHalf();
            && Feasible(w, envs, run)
            && var z := Reached(w, envs, run);
            && 0 in z.conns && 1 in z.conns && HeldBy(z.conns[0]) == "ann" && HeldBy(z.conns[1]) == "ann"
            && !Exclusive(z.conns)
  {
    var w := World(map[], EmptyTable(), files);
    AnnIsHeldOnce(envs, files);
    AnnIsHeldAgain(Reached(w, envs, FirstHalf()), envs);
    OneAfterAnother(w, envs, FirstHalf(), SecondHalf());
  }

  // ---------- names nobody holds ----------

  // Nobody holds `name`.
  ghost predicate Unheld(conns: map<nat, Conn>, name: string) {
    forall id :: id in conns ==> HeldBy(conns[id]) != name
  }

  /** Logging or online, with no connection behind it. */
  ghost predicate Orphan(w: World, name: string) {
    name != "" && Busy(w.table.slots, name) && Unheld(w.conns, name)
  }

  /** The event of `h` forgets `name`: it is the holder's, and it will drop it without giving it back. */
  ghost predicate Orphans(w: World, name: string, h: Happening) {
    && h.Dispatch? && h.id in w.conns
    && HeldBy(w.conns[h.id]) == name && Forgets(w.conns[h.id], h.e)
  }

  /** The one way out: adding the name again over an earlier free slot. */
  predicate Rescues(w: World, name: string, h: Happening) {
    h.AddUser? && h.name == name && Overlooks(w.table, name)
  }

  lemma DispatchOrphansIff(w: World, envs: Places, name: string, id: nat, e: Event)
    requires Sound(w, envs) && Possible(w, Dispatch(id, e)) && name != ""
    ensures Orphan(Next(w, envs, Dispatch(id, e)), name) <==> Orphan(w, name) || Orphans(w, name, Dispatch(id, e))
  {
    var x, place := Seen(w.conns[id], w.files), PlaceOf(w, envs, id);
    SeenIsOk(w, envs, id);
    EventTrades(x, place, w.table.slots, e);
    var (y, after) := Step(x, place, w.table.slots, e);
    assert Forgets(x, e) == Forgets(w.conns[id], e);
    OrphanTrade(w, name, id, y, after, Forgets(x, e));
  }

  lemma UnheldAfter(conns: map<nat, Conn>, name: string, id: nat, y: Conn)
    requires id in conns && Exclusive(conns) && name != ""
    ensures Unheld(conns[id := y], name) <==>
            HeldBy(y) != name && (HeldBy(conns[id]) == name || Unheld(conns, name))
  {
    var z := conns[id := y];
    assert z[id] == y;
    if Unheld(z, name) {
      forall j | j in conns && j != id ensures HeldBy(conns[j]) != name {
        assert z[j] == conns[j];
      }
    }
  }

  // What a trade does to the orphans.
  lemma OrphanTrade(w: World, name: string, id: nat, y: Conn, after: Users.Slots, forgets: bool)
    requires id in w.conns && Exclusive(w.conns) && name != ""
    requires Trades(HeldBy(w.conns[id]), w.table.slots, HeldBy(y), after, forgets) && (forgets ==> HeldBy(y) == "")
    ensures Orphan(World(w.conns[id := y], w.table.(slots := after), y.c.fs), name) <==>
            Orphan(w, name) || (HeldBy(w.conns[id]) == name && forgets)
  {
    UnheldAfter(w.conns, name, id, y);
    assert HeldBy(w.conns[id]) == name ==> !Unheld(w.conns, name);
  }

  lemma AddOrphansIff(w: World, envs: Places, name: string, n: string, pass: string)
    requires Sound(w, envs) && name != ""
    ensures Orphan(Next(w, envs, AddUser(n, pass)), name) <==> Orphan(w, name) && !Rescues(w, name, AddUser(n, pass))
  {
    if n != name {
      AddKeepsOthers(w.table, n, pass, name);
    } else if Busy(w.table.slots, name) {
      BusyNames(w.table, name, pass);
    } else {
      AddedIsNotBusy(w.table, name, pass);
    }
  }

  lemma AddedIsNotBusy(t: Users.Table, name: string, pass: string)
    requires name != "" && !Busy(t.slots, name)
    ensures !Busy(Users.Add(t, name, pass).0.slots, name)
  {
    var free := Users.Find(t.slots, "");
    if Users.Add(t, name, pass).1 == 0 {
      Users.FirstIsFind(t.slots[free := Users.Slot(name, pass, Users.Offline)], name, free);
    }
  }

  /** Deleting a name whose first slot is offline uncovers a second slot of the name that is not: the leftover of
      an addition over a free slot. */
  predicate Uncovers(w: World, name: string, h: Happening) {
    && h.DeleteUser? && h.name == name
    && var i := Users.Find(w.table.slots, name);
    && i < |w.table.slots| && w.table.slots[i].state == Users.Offline
    && Busy(w.table.slots[i := Users.FREE_SLOT], name)
  }

  lemma DeleteOrphansIff(w: World, envs: Places, name: string, n: string)
    requires Sound(w, envs) && name != ""
    ensures Orphan(Next(w, envs, DeleteUser(n)), name) <==> Orphan(w, name) || Uncovers(w, name, DeleteUser(n))
  {
    if n != name {
      DeleteKeepsOthers(w.table, n, name);
    } else if Busy(w.table.slots, name) {
      BusyNames(w.table, n, "");
    } else {
      assert forall j :: j in w.conns ==> NameOk(w.conns[j], w.table.slots);
    }
  }

  lemma AcceptOrphansIff(w: World, envs: Places, name: string, id: nat)
    requires Sound(w, envs) && id !in w.conns && name != ""
    ensures Orphan(Next(w, envs, Accept(id)), name) <==> Orphan(w, name)
  {
    var z := Next(w, envs, Accept(id));
    assert forall j :: j in w.conns ==> z.conns[j] == w.conns[j];
    assert HeldBy(z.conns[id]) == "";
  }

  /** Exactly which events make an orphan, and which end one: the holder's unknown command in AUTH makes it, and so
      does deleting the upper one of two entries; adding the name again over an earlier free slot ends it. Logging
      in, closing, anything else: no other event does either. */
  lemma OrphanStep(w: World, envs: Places, name: string, h: Happening)
    requires Sound(w, envs) && Possible(w, h) && name != ""
    ensures Orphan(Next(w, envs, h), name) <==>
            (Orphan(w, name) && !Rescues(w, name, h)) || Orphans(w, name, h) || Uncovers(w, name, h)
  {
    match h
    case Accept(id) => AcceptOrphansIff(w, envs, name, id);
    case Dispatch(id, e) => DispatchOrphansIff(w, envs, name, id, e);
    case DeleteUser(n) => DeleteOrphansIff(w, envs, name, n);
    case AddUser(n, pass) => AddOrphansIff(w, envs, name, n, pass);
  }

  /** The name of a connection is orphaned by its own event exactly when that event forgets it. */
  lemma ForgottenIsOrphan(w: World, envs: Places, id: nat, e: Event)
    requires Sound(w, envs) && Possible(w, Dispatch(id, e)) && HeldBy(w.conns[id]) != ""
    ensures Orphan(Next(w, envs, Dispatch(id, e)), HeldBy(w.conns[id])) <==> Forgets(w.conns[id], e)
  {
    OrphanStep(w, envs, HeldBy(w.conns[id]), Dispatch(id, e));
  }

  ghost predicate OrphanThroughout(w: World, envs: Places, name: string, run: seq<Happening>)
    requires PlacesOk(envs) && History(w, envs, run)
    decreases |run|
  {
    Orphan(w, name) && (run != [] ==> OrphanThroughout(Next(w, envs, run[0]), envs, name, run[1..]))
  }

  ghost predicate Unrescued(w: World, envs: Places, name: string, run: seq<Happening>)
    requires PlacesOk(envs) && History(w, envs, run)
    decreases |run|
  {
    run != [] ==> !Rescues(w, name, run[0]) && Unrescued(Next(w, envs, run[0]), envs, name, run[1..])
  }

  lemma OrphanStaysIff(w: World, envs: Places, name: string, h: Happening)
    requires Sound(w, envs) && Possible(w, h) && Orphan(w, name)
    ensures Orphan(Next(w, envs, h), name) <==> !Rescues(w, name, h)
  {
    OrphanStep(w, envs, name, h);
  }

  /** An orphaned name stays so over a whole history exactly when it is never added again over an earlier free slot.
      Until then no connection can log in as it and it cannot be deleted. */
  lemma {:induction false} OrphanForever(w: World, envs: Places, name: string, run: seq<Happening>)
    requires Sound(w, envs) && Orphan(w, name) && History(w, envs, run)
    ensures OrphanThroughout(w, envs, name, run) <==> Unrescued(w, envs, name, run)
    ensures Unrescued(w, envs, name, run) ==>
              var z := Final(w, envs, run); Orphan(z, name) && Users.Delete(z.table, name) == (z.table, -2)
    decreases |run|
  {
    if run == [] {
      BusyNames(w.table, name, "");
    } else {
      SoundStep(w, envs, run[0]);
      OrphanStaysIff(w, envs, name, run[0]);
      if !Rescues(w, name, run[0]) {
        OrphanForever(Next(w, envs, run[0]), envs, name, run[1..]);
      }
    }
  }
}
