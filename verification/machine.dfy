/** The state machine of a connection (stm.c) driven by the selector's events (pop3.c), as values. */
module Machine {
  import opened Text
  import opened Parsers
  import opened Maildrops
  import opened Sessions
  import Users

  /** `current` is NULL until the first event; `entered` records every state whose arrival hook ran. */
  datatype Conn = Conn(c: Client, current: Option<int>, entered: seq<int>, closed: bool, aborted: bool)

  function NewConn(fs: Files): Conn {
    Conn(NewClient(fs), None, [], false, false)
  }

  /** The on_arrival column of client_states. */
  function OnArrival(c: Client, state: int): Client {
    if state == AUTH || state == TRANSACTION then c.(parser := INIT_P)
    else if state == UPDATE then c.(parser := INIT_P, interest := Write)
    else c
  }

  function HandleFirst(x: Conn): Conn {
    if x.current.Some? then x
    else x.(current := Some(GREETING_WRITE), entered := x.entered + [GREETING_WRITE],
            c := OnArrival(x.c, GREETING_WRITE))
  }

  function Jump(x: Conn, next: int): Conn {
    if next < 0 || next > ERROR_POP3 then x.(aborted := true)
    else if x.current == Some(next) then x
    else x.(current := Some(next), entered := x.entered + [next], c := OnArrival(x.c, next))
  }

  /** After a handler: jump, and close the connection in a final state (close_connection). */
  function Finish(x: Conn, to: int, slots: Users.Slots): (Conn, Users.Slots) {
    var y := Jump(x, to);
    if to == DONE || to == ERROR_POP3 then
      (y.(closed := true), if y.c.user != "" then Users.SetState(slots, y.c.user, Users.Offline) else slots)
    else (y, slots)
  }

  /** A connection that was closed by UPDATE. */
  predicate Committed(x: Conn) {
    x.closed && UPDATE in x.entered
  }

  datatype Event = Readable(r: Recv) | Writable(m: nat) | PipeReadable(k: nat)

  /** What the selector may dispatch: an event its descriptor has interest in. recv yields
      between one byte and the room offered, all in the parser's alphabet. */
  predicate Enabled(x: Conn, e: Event) {
    && !x.closed && !x.aborted
    && match e
       case Readable(r) => x.c.interest == Read && (r.Got? ==> 0 < |r.bytes| <= RecvRoom(x.c) && AllLegal(r.bytes))
       case Writable(_) => x.c.interest == Write
       case PipeReadable(_) => x.c.reader.Registered? && x.c.reader.interest == Read
  }

  function OnWrite(x: Conn, env: Env, slots: Users.Slots, m: nat): (Conn, Users.Slots)
    requires IsNewDir(env.dir)
  {
    var y := HandleFirst(x);
    var at := y.current.value;
    if at == GREETING_WRITE then
      var (c, to) := WriteGreeting(y.c, m);
      Finish(y.(c := c), to, slots)
    else if at == AUTH then
      var (c, slots', to) := AuthProcess(y.c, slots, m);
      Finish(y.(c := c), to, slots')
    else if at == TRANSACTION then
      var (c, to) := TransProcess(y.c, env, m);
      Finish(y.(c := c), to, slots)
    else if at == UPDATE then
      var (c, to) := UpdateProcess(y.c, env, m);
      Finish(y.(c := c), to, slots)
    else (y.(aborted := true), slots)
  }

  function OnRead(x: Conn, slots: Users.Slots, r: Recv): (Conn, Users.Slots) {
    var y := HandleFirst(x);
    var at := y.current.value;
    if at == AUTH || at == TRANSACTION then
      var (c, to) := Receive(y.c, r, at);
      Finish(y.(c := c), to, slots)
    else (y.(aborted := true), slots)
  }

  function Step(x: Conn, env: Env, slots: Users.Slots, e: Event): (Conn, Users.Slots)
    requires IsNewDir(env.dir) && Enabled(x, e)
  {
    match e
    case Readable(r) => OnRead(x, slots, r)
    case Writable(m) => OnWrite(x, env, slots, m)
    case PipeReadable(k) => (x.(c := PipeReady(x.c, env, k)), slots)
  }

  // ---------- runs of one connection ----------

  /** An event, and the user table as the other sessions have left it by then. */
  datatype Moment = Moment(slots: Users.Slots, e: Event)

  ghost predicate IsRun(x: Conn, env: Env, run: seq<Moment>)
    requires IsNewDir(env.dir)
    decreases |run|
  {
    run != [] ==> Enabled(x, run[0].e) && IsRun(Step(x, env, run[0].slots, run[0].e).0, env, run[1..])
  }

  ghost function After(x: Conn, env: Env, run: seq<Moment>): Conn
    requires IsNewDir(env.dir) && IsRun(x, env, run)
    decreases |run|
  {
    if run == [] then x else After(Step(x, env, run[0].slots, run[0].e).0, env, run[1..])
  }

  function Received(run: seq<Moment>): string {
    if run == [] then ""
    else (if run[0].e.Readable? && run[0].e.r.Got? then run[0].e.r.bytes else "") + Received(run[1..])
  }
}
