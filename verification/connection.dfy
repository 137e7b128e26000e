/** A connection as the selector sees it: the state machine (stm.c) over client_states and the handlers
    of pop3.c. `Dispatch` performs `Machine.Step` in place, so every theorem about runs of steps is
    one about this object. */
module Connections {
  import opened Text
  import opened Buffers
  import opened Parsers
  import opened Automata
  import opened Maildrops
  import opened Maildirs
  import opened Replies
  import opened Sessions
  import opened Machine
  import opened Lifecycle
  import opened Engines
  import Users

  class Connection {
    const engine: Engine
    var current: Option<int>
    var closed: bool
    var aborted: bool
    ghost var entered: seq<int>

    ghost predicate Valid()
      reads this, engine, engine.inp, engine.out, engine.parser, engine.parser.cmd, engine.parser.arg, engine.box
    {
      engine.Valid()
    }

    ghost function Whole(): Conn
      reads this, engine, engine.inp, engine.inp.data, engine.out, engine.out.data
      reads engine.parser, engine.parser.cmd, engine.parser.arg, engine.box, engine.box.mails, engine.disk
      requires Valid()
    {
      Conn(engine.State(), current, entered, closed, aborted)
    }

    constructor (rows: Rows, users: Users.UserTable, disk: Disk)
      requires rows == Tables()
      ensures Valid() && Whole() == NewConn(disk.files)
      ensures engine.users == users && engine.disk == disk
    {
      engine := new Engine(rows, users, disk);
      current := None;
      closed, aborted := false, false;
      entered := [];
    }

    /** The on_arrival hooks: init_auth, init_trans and init_update. */
    method Arrive(state: int)
      requires Valid()
      modifies engine`interest, engine.parser, engine.parser.cmd, engine.parser.arg
      ensures Valid() && engine.State() == OnArrival(old(engine.State()), state)
    {
      if state == AUTH || state == TRANSACTION || state == UPDATE {
        engine.parser.Init();
      }
      if state == UPDATE {
        engine.interest := Write;
      }
    }

    /** handle_first */
    method Begin()
      requires Valid()
      modifies this`current, this`entered, engine`interest, engine.parser, engine.parser.cmd, engine.parser.arg
      ensures Valid() && Whole() == HandleFirst(old(Whole()))
    {
      if current.None? {
        current := Some(GREETING_WRITE);
        entered := entered + [GREETING_WRITE];
        Arrive(GREETING_WRITE);
      }
    }

    /** jump */
    method JumpTo(next: int)
      requires Valid()
      modifies this`current, this`entered, this`aborted,
               engine`interest, engine.parser, engine.parser.cmd, engine.parser.arg
      ensures Valid() && Whole() == Jump(old(Whole()), next)
    {
      if next < 0 || next > ERROR_POP3 {
        aborted := true;
        return;
      }
      if current != Some(next) {
        current := Some(next);
        entered := entered + [next];
        Arrive(next);
      }
    }

    /** The jump after a handler, and close_connection in a final state. */
    method Conclude(to: int)
      requires Valid() && !closed
      modifies this`current, this`entered, this`aborted, this`closed,
               engine`interest, engine.parser, engine.parser.cmd, engine.parser.arg, engine.users.users
      ensures Valid()
      ensures (Whole(), engine.users.users[..]) == Finish(old(Whole()), to, old(engine.users.users[..]))
    {
      JumpTo(to);
      if to == DONE || to == ERROR_POP3 {
        CloseConnection();
      }
    }

    /** close_connection, once. Being closed stands for being unregistered: no event is dispatched any more. */
    method CloseConnection()
      requires Valid()
      modifies this`closed, engine.users.users
      ensures Valid() && Whole() == old(Whole()).(closed := true)
      ensures engine.users.users[..] ==
              if !old(closed) && engine.user != "" then
                Users.SetState(old(engine.users.users[..]), engine.user, Users.Offline)
              else old(engine.users.users[..])
    {
      if closed {
        return;
      }
      closed := true;
      if engine.user != "" {
        engine.users.UserSetState(engine.user, Users.Offline);
      }
    }

    /** The on_write_ready column. */
    method WriteHandler(at: int, env: Env, m: nat) returns (to: int)
      requires Valid() && GREETING_WRITE <= at <= UPDATE && WriteReady(engine.State(), at, env)
      modifies engine, engine.inp, engine.inp.data, engine.out, engine.out.data, engine.disk, engine.users.users,
               engine.parser, engine.parser.cmd, engine.parser.arg, engine.box, engine.box.mails
      ensures Valid()
      ensures (engine.State(), engine.users.users[..], to) ==
              Written(old(engine.State()), at, env, old(engine.users.users[..]), m)
    {
      if at == GREETING_WRITE {
        to := engine.SendGreeting(m);
      } else if at == AUTH {
        to := engine.AuthProcess(m);
      } else if at == TRANSACTION {
        to := engine.TransProcess(env, m);
      } else {
        to := engine.UpdateProcess(env, m);
      }
    }

    // The handler of the current state, then the jump.
    method WriteAndConclude(env: Env, m: nat)
      requires Valid() && !closed && current.Some? && GREETING_WRITE <= current.value <= UPDATE
      requires WriteReady(engine.State(), current.value, env)
      modifies this, engine, engine.inp, engine.inp.data, engine.out, engine.out.data, engine.disk, engine.users.users,
               engine.parser, engine.parser.cmd, engine.parser.arg, engine.box, engine.box.mails
      ensures Valid()
      ensures var x := old(Whole());
              var (c, after, to) := Written(x.c, x.current.value, env, old(engine.users.users[..]), m);
              (Whole(), engine.users.users[..]) == Finish(x.(c := c), to, after)
    {
      var to := WriteHandler(current.value, env, m);
      Conclude(to);
    }

    /** pop3_handle_write and stm_handler_write */
    method HandleWrite(env: Env, m: nat)
      requires Valid() && !closed && WritableNow(Whole(), env)
      modifies this, engine, engine.inp, engine.inp.data, engine.out, engine.out.data, engine.disk, engine.users.users,
               engine.parser, engine.parser.cmd, engine.parser.arg, engine.box, engine.box.mails
      ensures Valid()
      ensures (Whole(), engine.users.users[..]) == OnWrite(old(Whole()), env, old(engine.users.users[..]), m)
    {
      OnWriteIsHandler(Whole(), env, engine.users.users[..], m);
      Begin();
      WriteAndConclude(env, m);
    }

    /** pop3_handle_read and stm_handler_read */
    method HandleRead(r: Recv)
      requires Valid() && !closed && (current == Some(AUTH) || current == Some(TRANSACTION))
      modifies this, engine, engine.inp, engine.inp.data, engine.users.users,
               engine.parser, engine.parser.cmd, engine.parser.arg
      ensures Valid()
      ensures (Whole(), engine.users.users[..]) == OnRead(old(Whole()), old(engine.users.users[..]), r)
    {
      Begin();
      var to := engine.Receive(r, current.value);
      Conclude(to);
    }

    // The handler of an event.
    method Handle(env: Env, e: Event)
      requires Valid() && Ready(Whole(), env, e)
      modifies this, engine, engine.inp, engine.inp.data, engine.out, engine.out.data, engine.disk, engine.users.users,
               engine.parser, engine.parser.cmd, engine.parser.arg, engine.box, engine.box.mails
      ensures Valid()
      ensures (Whole(), engine.users.users[..]) == Step(old(Whole()), env, old(engine.users.users[..]), e)
    {
      match e
      case Readable(r) => HandleRead(r);
      case Writable(m) => HandleWrite(env, m);
      case PipeReadable(k) => engine.HandleFileReader(env, k);
    }

    /** One event that the selector may dispatch: the object takes the step of the model, and is again in
        a state in which every event has a handler. */
    method Dispatch(env: Env, e: Event)
      requires Valid() && ConnInv(Whole(), env) && Enabled(Whole(), e)
      modifies this, engine, engine.inp, engine.inp.data, engine.out, engine.out.data, engine.disk, engine.users.users,
               engine.parser, engine.parser.cmd, engine.parser.arg, engine.box, engine.box.mails
      ensures Valid() && ConnInv(Whole(), env)
      ensures (Whole(), engine.users.users[..]) == Step(old(Whole()), env, old(engine.users.users[..]), e)
    {
      LifeStep(Whole(), env, engine.users.users[..], e);
      EventIsReady(Whole(), env, e);
      Handle(env, e);
    }
  }

  /** What the write handler of a state makes of the connection and the user table. */
  ghost function Written(c: Client, at: int, env: Env, slots: Users.Slots, m: nat): (Client, Users.Slots, int)
    requires GREETING_WRITE <= at <= UPDATE && IsNewDir(env.dir)
  {
    if at == GREETING_WRITE then (WriteGreeting(c, m).0, slots, WriteGreeting(c, m).1)
    else if at == AUTH then AuthProcess(c, slots, m)
    else if at == TRANSACTION then (TransProcess(c, env, m).0, slots, TransProcess(c, env, m).1)
    else (UpdateProcess(c, env, m).0, slots, UpdateProcess(c, env, m).1)
  }

  // What the handlers rely on.
  ghost predicate WriteReady(c: Client, at: int, env: Env) {
    && IsNewDir(env.dir)
    && (at == AUTH ==> c.inp.Normal() && AllLegal(c.inp.content) && c.out.Normal() && c.out.cap == BUFFER_SIZE)
    && (at == TRANSACTION ==> TransReady(c, env))
    && (at == UPDATE ==> DropOk(c.maildir) && c.out.Room() >= MAX_REPLY)
  }

  ghost predicate WritableNow(x: Conn, env: Env) {
    var y := HandleFirst(x);
    GREETING_WRITE <= y.current.value <= UPDATE && WriteReady(y.c, y.current.value, env)
  }

  lemma ReadyToWrite(x: Conn, env: Env, m: nat)
    requires ConnInv(x, env) && Enabled(x, Writable(m))
    ensures WritableNow(x, env)
  {
    if x.current == Some(TRANSACTION) {
      InvIsReady(x.c, env);
    }
  }

  // Every enabled event has a handler that can run.
  ghost predicate Ready(x: Conn, env: Env, e: Event) {
    && IsNewDir(env.dir) && Enabled(x, e)
    && match e
       case Writable(_) => WritableNow(x, env)
       case Readable(_) => x.current == Some(AUTH) || x.current == Some(TRANSACTION)
       case PipeReadable(_) => x.c.out.Room() >= 2
  }

  lemma EventIsReady(x: Conn, env: Env, e: Event)
    requires ConnInv(x, env) && Enabled(x, e)
    ensures Ready(x, env, e)
  {
    if e.Writable? {
      ReadyToWrite(x, env, e.m);
    }
  }

  lemma OnWriteIsHandler(x: Conn, env: Env, slots: Users.Slots, m: nat)
    requires IsNewDir(env.dir)
    ensures var y := HandleFirst(x);
            GREETING_WRITE <= y.current.value <= UPDATE ==>
              var (c, after, to) := Written(y.c, y.current.value, env, slots, m);
              OnWrite(x, env, slots, m) == Finish(y.(c := c), to, after)
  {
  }
}
