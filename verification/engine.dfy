/** The object of one connection (client_data) and the handlers that change it in place. Every method does
    to `State()` what the function of the same name in `Sessions` says; the theorems about those functions
    are therefore theorems about these methods. */
module Engines {
  import opened Text
  import opened Buffers
  import opened Parsers
  import opened Automata
  import opened Maildrops
  import opened Maildirs
  import opened Replies
  import opened Sessions
  import opened Delivery
  import opened Answers
  import opened Schedules
  import opened Lifecycle
  import Users

  /** The `send` member of client_data. */
  datatype Send = Send(finished: bool, file: bool, multiline: bool, filler: Filler)

  class Engine {
    const inp: Buffer
    const out: Buffer
    const parser: LineParser
    const box: Maildir
    const users: Users.UserTable
    const disk: Disk

    var send: Send
    var err: ErrCode
    var user: string
    var next: int
    var listed: nat

    // The selector's two items for this connection, and the peer's end of the socket.
    var interest: Interest
    var reader: Reader
    var wire: string

    ghost predicate Valid()
      reads this, inp, out, parser, parser.cmd, parser.arg, box
    {
      && inp != out && inp.data != out.data
      && parser.cmd != inp.data && parser.arg != inp.data && parser.cmd != out.data && parser.arg != out.data
      && inp.Valid() && out.Valid() && parser.Valid() && parser.d == Pop3
      && (box.mails == null ==> box.ndel == 0)
    }

    // What the objects hold: parser, output, input, mail list and files.
    ghost function Held(): (P, Buf, Buf, Drop, Files)
      reads inp, inp.data, out, out.data, parser, parser.cmd, parser.arg, box, box.mails, disk
      requires inp.Valid() && out.Valid() && parser.Valid()
    {
      (parser.Model(), out.Model(), inp.Model(), box.Model(), disk.files)
    }

    ghost function State(): Client
      reads this, inp, inp.data, out, out.data, parser, parser.cmd, parser.arg, box, box.mails, disk
      requires Valid()
    {
      var h := Held();
      Client(h.0, send.finished, send.file, send.multiline, send.filler, err, user, next, h.1, h.2, listed, h.3,
             interest, reader, wire, h.4)
    }

    /** init_new_client_data, over the shared user table and disk. */
    constructor (rows: Rows, users: Users.UserTable, disk: Disk)
      requires rows == Tables()
      ensures Valid() && State() == NewClient(disk.files)
      ensures this.users == users && this.disk == disk
    {
      inp := new Buffer(BUFFER_SIZE);
      out := new Buffer(BUFFER_SIZE);
      parser := new LineParser(Pop3, rows);
      box := new Maildir();
      this.users := users;
      this.disk := disk;
      send := Send(true, false, false, NoFiller);
      err, user, next, listed := NoErr, "", -1, 0;
      interest, reader, wire := Write, Unregistered, "";
    }

    // ---------- receiving and sending ----------

    // Compacts the input buffer if it is full.
    method MakeRoom() returns (room: bool)
      requires Valid()
      modifies inp, inp.data
      ensures Valid() && (room <==> inp.Model().Room() > 0)
      ensures State() == var b := old(inp.Model());
                         old(State()).(inp := if b.Room() <= 0 then b.Compact() else b)
    {
      room := inp.CanWrite();
      if !room {
        inp.Compact();
        room := inp.CanWrite();
      }
    }

    /** auth_read and trans_read. */
    method Receive(r: Recv, stay: int) returns (to: int)
      requires Valid()
      modifies this`interest, this`err, inp, inp.data
      ensures Valid() && (State(), to) == Sessions.Receive(old(State()), r, stay)
    {
      if !send.finished {
        interest := Write;
        return stay;
      }
      var room := MakeRoom();
      if !room {
        to := NoRoom(stay);
        return;
      }
      to := Recv(r, stay);
    }

    // recv() into the room there is.
    method Recv(r: Recv, stay: int) returns (to: int)
      requires Valid() && inp.Model().Room() > 0 && send.finished
      modifies this`interest, this`err, inp, inp.data
      ensures Valid() && (State(), to) == Sessions.Receive(old(State()), r, stay)
    {
      match r
      case Failed =>
        err := UnknownError;
        to := ERROR_POP3;
      case Closed =>
        to := DONE;
      case Got(bytes) =>
        var limit := inp.WriteLimit();
        inp.Put(Take(bytes, limit));
        interest := Write;
        to := stay;
    }

    // The branch for an input buffer that stays full.
    method NoRoom(stay: int) returns (to: int)
      requires Valid()
      modifies this`interest, this`err
      ensures Valid()
      ensures (State(), to) == if old(State()).out.content != [] then (old(State()).(interest := Write), stay)
                               else (old(State()).(err := UnknownError), ERROR_POP3)
    {
      var pending := out.CanRead();
      if pending {
        interest := Write;
        to := stay;
      } else {
        err := UnknownError;
        to := ERROR_POP3;
      }
    }

    /** send() of at most `limit` buffered bytes, of which the peer takes up to `m`. */
    method SendSome(limit: nat, m: nat) returns (all: bool)
      requires Valid()
      modifies this`wire, out, out.data
      ensures Valid() && State() == Sessions.SendSome(old(State()), limit, m)
      ensures all <==> State().out.content == []
    {
      var pending := out.ReadLimit();
      var sent := Min(m, Min(pending, limit));
      var bytes := out.Peek(sent);
      wire := wire + bytes;
      out.ReadAdv(sent);
      all := sent == pending;
    }

    // The test of write_msg for a full buffer, which takes the room that compaction makes for the error.
    method CheckRoom() returns (ok: bool)
      requires Valid()
      modifies this`err, out, out.data
      ensures Valid() && (ok <==> !(old(out.Model()).Room() <= 0 && old(out.Model()).Compact().Room() > 0))
      ensures State() == if ok then old(State())
                         else old(State()).(out := old(out.Model()).Compact(), err := UnknownError)
    {
      ok := out.CanWrite();
      if !ok {
        out.Compact();
        var room := out.CanWrite();
        if room {
          err := UnknownError;
        }
        ok := !room;
      }
    }

    /** write_msg and the caller's buffer_read_adv. The copy is not checked, so the message must fit. */
    method WriteMsg(msg: string, m: nat) returns (ok: bool)
      requires Valid() && (out.Model().Room() > 0 || out.Model().Compact().Room() <= 0 ==> |msg| <= out.Model().Room())
      modifies this`wire, this`err, out, out.data
      ensures Valid() && (ok <==> !(old(out.Model()).Room() <= 0 && old(out.Model()).Compact().Room() > 0))
      ensures State() == if ok then Sessions.WriteMsg(old(State()), msg, m)
                         else old(State()).(out := old(out.Model()).Compact(), err := UnknownError)
    {
      ok := CheckRoom();
      if ok {
        out.Put(msg);
        var pending := out.ReadLimit();
        var _ := SendSome(pending, m);
      }
    }

    // write_msg where there is room, as all its callers have it: the error is not reached.
    method WriteFitting(msg: string, m: nat)
      requires Valid() && |msg| <= out.Model().Room() && out.Model().Room() > 0
      modifies this`wire, this`err, out, out.data
      ensures Valid() && State() == Sessions.WriteMsg(old(State()), msg, m)
    {
      var _ := WriteMsg(msg, m);
    }

    /** auth_parse and trans_parse on the input buffer. */
    method Consume()
      requires Valid() && inp.Model().Normal() && AllLegal(inp.Model().content)
      modifies parser, parser.cmd, parser.arg, inp, inp.data
      ensures Valid() && State() == Sessions.Consume(old(State()))
    {
      ConsumeIsDrained(State());
      parser.Parse(inp);
    }

    // ---------- AUTH ----------

    ghost function Deciding(): Login
      reads this
    {
      Login(user, err, next)
    }

    // The USER branch of process_cmd.
    method AuthUser(name: string) returns (ok: bool)
      modifies this`next, this`user, this`err, users.users
      ensures (Deciding(), users.users[..], ok) == Sessions.AuthUser(old(Deciding()), old(users.users[..]), name)
    {
      next := AUTH;
      var found := users.UserExists(name);
      if !found {
        err := UnknownUser;
        return false;
      }
      var st := users.UserGetState(name);
      if st != Users.Offline {
        err := AlreadyOnline;
        return false;
      }
      if user != "" {
        users.UserSetState(user, Users.Offline);
      }
      user := name;
      users.UserSetState(user, Users.Logging);
      ok := true;
    }

    // The PASS branch.
    method AuthPass(pass: string) returns (ok: bool)
      modifies this`next, this`user, this`err, users.users
      ensures (Deciding(), users.users[..], ok) == Sessions.AuthPass(old(Deciding()), old(users.users[..]), pass)
    {
      if user == "" {
        err := PassBeforeUser;
        next := AUTH;
        return false;
      }
      var logged := users.UserCheckPass(user, pass);
      if !logged {
        users.UserSetState(user, Users.Offline);
        user := "";
        err := WrongPassword;
        next := AUTH;
        return false;
      }
      users.UserSetState(user, Users.Online);
      next := TRANSACTION;
      ok := true;
    }

    // The branches of process_cmd.
    method AuthCommand(verb: AuthVerb, arg: string) returns (ok: bool)
      modifies this`next, this`user, this`err, users.users
      ensures (Deciding(), users.users[..], ok) ==
              Sessions.AuthCommand(old(Deciding()), old(users.users[..]), verb, arg)
    {
      match verb
      case QuitA =>
        next := DONE;
        ok := true;
      case UserA => ok := AuthUser(arg);
      case PassA => ok := AuthPass(arg);
      case CapaA =>
        next := AUTH;
        err := NoErr;
        ok := true;
      case NoAuthVerb =>
        ok := false;
        if err != BadChar {
          err := BadCommand;
          next := AUTH;
          user := "";
        } else {
          next := ERROR_POP3;
        }
    }

    // QUIT leaves a mark in the parser.
    method MarkQuit(verb: AuthVerb)
      requires Valid()
      modifies parser`quit
      ensures Valid()
      ensures Held() == var h := old(Held()); (h.0.(quit := verb == QuitA || h.0.quit), h.1, h.2, h.3, h.4)
    {
      if verb == QuitA {
        parser.quit := true;
      }
    }

    // Deciding touches none of the objects.
    method Decide(verb: AuthVerb, arg: string) returns (ok: bool)
      requires Valid()
      modifies this`next, this`user, this`err, users.users
      ensures Valid() && Held() == old(Held())
      ensures (Deciding(), users.users[..], ok) ==
              Sessions.AuthCommand(old(Deciding()), old(users.users[..]), verb, arg)
    {
      ok := AuthCommand(verb, arg);
    }

    /** process_cmd */
    method ProcessCmd() returns (ok: bool)
      requires Valid()
      modifies this`next, this`user, this`err, parser`quit, users.users
      ensures Valid()
      ensures (State(), users.users[..], ok) == Sessions.ProcessCmd(old(State()), old(users.users[..]))
    {
      var cmd := parser.CmdText();
      var arg := parser.ArgText();
      var verb := AuthVerbOf(cmd);
      MarkQuit(verb);
      ok := Decide(verb, arg);
    }

    /** generateMsg */
    method GenerateMsg(ok: bool) returns (msg: string)
      requires Valid()
      ensures msg == Sessions.GenerateMsg(State(), users.users[..], ok)
    {
      if ok {
        var st := users.UserGetState(user);
        var cmd := parser.CmdText();
        msg := if parser.quit then "+OK closing connection\r\n"
               else if st == Users.Logging then "+OK valid user\r\n"
               else if AuthVerbOf(cmd) == CapaA then CAPABILITIES
               else "+OK logged in\r\n";
      } else {
        match err
        case UnknownUser => msg := "-ERR never heard of that user\r\n";
        case PassBeforeUser => msg := "-ERR cant use PASS before USER\r\n";
        case WrongPassword => msg := "-ERR invalid password :(\r\n";
        case BadCommand => msg := INVALID_COMMAND;
        case AlreadyOnline => msg := "-ERR user already online\r\n";
        case _ => msg := "-ERR unknown error\r\n";
      }
    }

    // ---------- TRANSACTION: the commands ----------

    /** get_new_mails: the list, and the two sums over it. */
    method GetNewMails(env: Env) returns (ok: bool, size: nat, delSize: nat)
      requires Valid()
      modifies box
      ensures Valid() && (box.mails == old(box.mails) || fresh(box.mails))
      ensures ok <==> Load(old(box.Model()), env.listing).Some?
      ensures ok ==> box.mails != null && box.Model() == Load(old(box.Model()), env.listing).value
      ensures old(box.mails) != null ==> ok && box.mails == old(box.mails)
      ensures ok ==> size == SizeSum(box.Model().mails) && delSize == DelSize(box.Model().mails)
      ensures State() == old(State()).(maildir := box.Model()) && (!ok ==> State() == old(State()))
    {
      size, delSize := 0, 0;
      ok := box.ListNew(env.listing);
      if ok {
        size, delSize := box.Totals();
      }
    }

    /** cmd_stat */
    method CmdStat(env: Env) returns (msg: string)
      requires Valid()
      modifies box
      ensures Valid() && (box.mails == old(box.mails) || fresh(box.mails))
      ensures (State(), msg) == Sessions.CmdStat(old(State()), env)
    {
      var ok, size, delSize := GetNewMails(env);
      if !ok {
        return SERVER_ERROR;
      }
      var count, octets := KeptTotals(size, delSize);
      msg := StatLine(count, octets);
    }

    // The two unsigned differences that STAT and LIST print.
    method KeptTotals(size: nat, delSize: nat) returns (count: nat, octets: nat)
      requires Valid() && box.mails != null && size == SizeSum(box.mails[..]) && delSize == DelSize(box.mails[..])
      ensures count == KeptCount(box.Model()) && octets == KeptSize(box.Model())
    {
      count, octets := U32(box.mails.Length - box.ndel), U64(size - delSize);
    }

    // The number argument of LIST, RETR and DELE, and the refusals.
    method PickMail() returns (n: int, refusal: Option<string>)
      requires Valid() && box.mails != null
      ensures n == Atoi(FirstToken(parser.Model().arg)) && refusal == NumberError(n, box.mails.Length)
    {
      var arg := parser.NextArg();
      n := Atoi(arg);
      if n == 0 {
        refusal := Some(NotUnderstood(box.mails.Length));
      } else if n < 0 || n > box.mails.Length {
        refusal := Some(NoSuchMessage(box.mails.Length));
      } else {
        refusal := None;
      }
    }

    /** cmd_list */
    method CmdList(env: Env) returns (msg: string)
      requires Valid()
      modifies this`send, box
      ensures Valid() && (box.mails == old(box.mails) || fresh(box.mails))
      ensures (State(), msg) == Sessions.CmdList(old(State()), env)
    {
      var ok, size, delSize := GetNewMails(env);
      if !ok {
        return SERVER_ERROR;
      }
      if parser.totalArg == 0 {
        msg := ListAll(size, delSize);
      } else {
        msg := ListNumbered();
      }
    }

    // The header; the lines will be added by the callback.
    method ListAll(size: nat, delSize: nat) returns (msg: string)
      requires Valid() && box.mails != null && size == SizeSum(box.mails[..]) && delSize == DelSize(box.mails[..])
      modifies this`send
      ensures Valid()
      ensures State() == old(State()).(finished := false, multiline := true, filler := ListAllNew)
      ensures msg == ListHeader(KeptCount(old(box.Model())), KeptSize(old(box.Model())))
    {
      var count, octets := KeptTotals(size, delSize);
      msg := ListHeader(count, octets);
      send := send.(finished := false, multiline := true, filler := ListAllNew);
    }

    // cmd_list with an argument.
    method ListNumbered() returns (msg: string)
      requires Valid() && box.mails != null
      ensures msg == Sessions.ListNumbered(box.Model(), parser.Model().arg)
    {
      var n, refusal := PickMail();
      match refusal
      case Some(m) => msg := m;
      case None =>
        msg := if box.mails[n - 1].del then IsDeleted(n) else ListOne(n, box.mails[n - 1].file.size);
    }

    /** cmd_retr: the mail is marked read before a byte of it is sent. */
    method CmdRetr(env: Env) returns (msg: string)
      requires Valid()
      modifies this`send, this`reader, this`interest, box, box.mails
      ensures Valid() && (box.mails == old(box.mails) || fresh(box.mails))
      ensures (State(), msg) == Sessions.CmdRetr(old(State()), env)
    {
      var ok, size, delSize := GetNewMails(env);
      if !ok {
        return SERVER_ERROR;
      }
      var pipe;
      msg, pipe := RetrNumbered();
      if pipe.Some? {
        StartPipe(pipe.value);
      }
    }

    // The content will be added by the pipe; init_file_reader makes the client wait for it.
    method StartPipe(pipe: string)
      requires Valid()
      modifies this`send, this`reader, this`interest
      ensures Valid()
      ensures State() == old(State()).(file := true, multiline := true, filler := LoadMore, finished := false,
                                       reader := Registered(Read, pipe), interest := NoOp)
    {
      send := Send(false, true, true, LoadMore);
      reader := Registered(Read, pipe);
      interest := NoOp;
    }

    // cmd_retr on the list.
    method RetrNumbered() returns (msg: string, pipe: Option<string>)
      requires Valid() && box.mails != null
      modifies box.mails
      ensures Valid() && box.mails == old(box.mails)
      ensures var (d, text, output) := Sessions.RetrNumbered(old(box.Model()), old(parser.Model()).arg);
              msg == text && pipe == output && State() == old(State()).(maildir := d)
    {
      var n, refusal := PickMail();
      match refusal
      case Some(m) =>
        msg := m;
        pipe := None;
      case None =>
        var f := box.mails[n - 1].file;
        box.SetReadMark(n - 1);
        msg := RetrHeader(f.size);
        pipe := Some(f.output);
    }

    /** cmd_dele */
    method CmdDele(env: Env) returns (msg: string)
      requires Valid()
      modifies box, box.mails
      ensures Valid() && (box.mails == old(box.mails) || fresh(box.mails))
      ensures (State(), msg) == Sessions.CmdDele(old(State()), env)
    {
      var ok, size, delSize := GetNewMails(env);
      if !ok {
        return SERVER_ERROR;
      }
      msg := DeleNumbered();
    }

    // cmd_dele on the list.
    method DeleNumbered() returns (msg: string)
      requires Valid() && box.mails != null
      modifies box`ndel, box.mails
      ensures Valid() && box.mails == old(box.mails)
      ensures var (d, text) := Sessions.DeleNumbered(old(box.Model()), old(parser.Model()).arg);
              msg == text && State() == old(State()).(maildir := d)
    {
      if parser.totalArg == 0 {
        return MustGive(box.mails.Length);
      }
      var n, refusal := PickMail();
      match refusal
      case Some(m) => msg := m;
      case None => msg := MarkDeleted(n);
    }

    method MarkDeleted(n: nat) returns (msg: string)
      requires Valid() && box.mails != null && 1 <= n <= box.mails.Length
      modifies box`ndel, box.mails
      ensures Valid() && box.mails == old(box.mails)
      ensures var d := old(box.Model());
              var marked := d.mails[n - 1].del;
              && msg == (if marked then AlreadyDeleted(n) else Deleted(n))
              && State() == old(State()).(maildir := if marked then d else SetDel(d, n - 1, true))
    {
      if box.mails[n - 1].del {
        msg := AlreadyDeleted(n);
      } else {
        box.SetDelMark(n - 1, true);
        msg := Deleted(n);
      }
    }

    /** cmd_rset */
    method CmdRset(env: Env) returns (msg: string)
      requires Valid() && DropOk(box.Model()) && SmallListing(env.listing)
      modifies box, box.mails
      ensures Valid() && (box.mails == old(box.mails) || fresh(box.mails))
      ensures (State(), msg) == Sessions.CmdRset(old(State()), env)
    {
      ghost var before := box.Model();
      var ok, size, delSize := GetNewMails(env);
      if !ok {
        return SERVER_ERROR;
      }
      LoadKeeps(before, env.listing);
      box.ClearAllMarks();
      msg := ResetLine(box.mails.Length, U64(size));
    }

    // The strcmp chain of handle_request.
    method RunVerb(env: Env, verb: Verb) returns (msg: string)
      requires Valid() && DropOk(box.Model()) && SmallListing(env.listing)
      modifies this`send, this`next, this`reader, this`interest, box, box.mails
      ensures Valid() && (box.mails == old(box.mails) || fresh(box.mails))
      ensures (State(), msg) == Sessions.RunVerb(old(State()), env, verb)
    {
      match verb
      case StatV => msg := CmdStat(env);
      case ListV => msg := CmdList(env);
      case RetrV => msg := CmdRetr(env);
      case DeleV => msg := CmdDele(env);
      case RsetV => msg := CmdRset(env);
      case NoopV => msg := NOOP;
      case QuitV =>
        msg := "";
        next := UPDATE;
      case CapaV => msg := CAPABILITIES;
      case NoVerb => msg := INVALID_COMMAND;
    }

    /** handle_request */
    method HandleRequest(env: Env) returns (msg: string)
      requires Valid() && DropOk(box.Model()) && SmallListing(env.listing)
      modifies this`send, this`next, this`reader, this`interest, parser.cmd, box, box.mails
      ensures Valid() && (box.mails == old(box.mails) || fresh(box.mails))
      ensures (State(), msg) == Sessions.HandleRequest(old(State()), env)
      ensures next == if Upper(old(State()).parser.cmd) == "QUIT" then UPDATE else TRANSACTION
    {
      parser.UpperCmd();
      next := TRANSACTION;
      var cmd := parser.CmdText();
      msg := RunVerb(env, VerbOf(cmd));
      OnlyQuitUpdates(old(State()), env);
    }

    // ---------- TRANSACTION: filling the output buffer ----------

    // The loop that skips marked messages.
    method SkipMarked()
      requires Valid() && box.mails != null && listed <= box.mails.Length
      modifies this`listed
      ensures Valid() && listed <= box.mails.Length
      ensures State() == old(State()).(listed := NextKept(old(box.Model()).mails, old(listed)))
    {
      while listed < box.mails.Length && box.mails[listed].del
        invariant listed <= box.mails.Length
        invariant NextKept(box.mails[..], listed) == NextKept(box.mails[..], old(listed))
        decreases box.mails.Length - listed
      {
        listed := listed + 1;
      }
    }

    // One line, if there is room for it.
    method PutLine() returns (done: bool)
      requires Valid() && box.mails != null && listed < box.mails.Length
      modifies this`listed, this`interest, out`write, out.data
      ensures Valid()
      ensures var line := ScanLine(old(listed) + 1, box.mails[old(listed)].file.size);
              && done == (old(out.Model()).Room() >= |line|)
              && State() == if done then old(State()).(out := old(out.Model()).Put(line), listed := old(listed) + 1,
                                                       interest := Write)
                            else old(State())
    {
      var nbwrite := out.WriteLimit();
      var line := ScanLine(listed + 1, box.mails[listed].file.size);
      if nbwrite < |line| {
        return false;
      }
      listed := listed + 1;
      out.Put(line);
      interest := Write;
      done := true;
    }

    // cmd_list_all_new from the next unmarked message on.
    method ListLine()
      requires Valid() && box.mails != null && listed <= box.mails.Length
      modifies this`send, this`listed, this`interest, out`write, out.data
      ensures Valid() && State() == Sessions.ListLine(old(State()), old(box.Model()))
    {
      if listed < box.mails.Length {
        var done := PutLine();
        if !done {
          return;
        }
      }
      if listed == box.mails.Length {
        EndList();
      }
    }

    /** cmd_list_all_new */
    method CmdListAllNew(env: Env)
      requires Valid() && box.mails != null && listed <= box.mails.Length
      modifies this`send, this`listed, this`interest, box, out`write, out.data
      ensures Valid() && box.mails == old(box.mails) && State() == Sessions.ListMore(old(State()), env)
    {
      var ok, size, delSize := GetNewMails(env);
      SkipMarked();
      ListLine();
    }

    method EndList()
      requires Valid()
      modifies this`send, this`listed
      ensures Valid() && State() == old(State()).(filler := NoFiller, listed := 0)
    {
      send := send.(filler := NoFiller);
      listed := 0;
    }

    /** load_more_bytes */
    method LoadMoreBytes()
      requires Valid()
      modifies this`interest, this`reader
      ensures Valid() && State() == Sessions.LoadMoreBytes(old(State()))
    {
      interest := NoOp;
      if reader.Registered? {
        reader := reader.(interest := Read);
      }
    }

    /** write_terminator */
    method WriteTerminator() returns (to: int)
      requires Valid()
      modifies out`write, out.data
      ensures Valid() && (State(), to) == Sessions.WriteTerminator(old(State()))
    {
      var room := out.WriteLimit();
      if room < |TERMINATOR| {
        return ERROR_POP3;
      }
      out.Put(TERMINATOR);
      to := TRANSACTION;
    }

    // The interest between two commands: what is left to do.
    method ReadIfDrained()
      requires Valid()
      modifies this`interest
      ensures Valid()
      ensures State() == old(State()).(interest := if old(inp.Model()).content == [] then Read else old(interest))
    {
      var pipelined := inp.CanRead();
      if !pipelined {
        interest := Read;
      }
    }

    /** send_data */
    method SendData(env: Env, m: nat) returns (to: int)
      requires Valid() && (send.filler == ListAllNew ==> box.mails != null && listed <= box.mails.Length)
      modifies this`send, this`listed, this`interest, this`reader, this`wire, box, out, out.data
      ensures Valid() && box.mails == old(box.mails) && (State(), to) == Sessions.SendData(old(State()), env, m)
    {
      var all := SendSome(MAX_BYTES_SEND, m);
      to := TRANSACTION;
      if all {
        match send.filler
        case ListAllNew => CmdListAllNew(env);
        case LoadMore => LoadMoreBytes();
        case NoFiller =>
          send := send.(finished := true);
          if send.multiline {
            to := WriteTerminator();
          } else {
            ReadIfDrained();
            to := next;
          }
      }
    }

    /** send_terminator */
    method SendTerminator(m: nat) returns (to: int)
      requires Valid()
      modifies this`send, this`interest, this`wire, out, out.data
      ensures Valid() && (State(), to) == Sessions.SendTerminator(old(State()), m)
    {
      var _ := SendSome(MAX_BYTES_SEND, m);
      send := Send(true, false, false, NoFiller);
      ReadIfDrained();
      to := next;
    }

    // ---------- the write handlers ----------

    // What trans_process does once the reply was tried.
    method AfterReply()
      requires Valid()
      modifies this`send, this`interest
      ensures Valid()
      ensures State() == Sessions.AfterReply(old(State()))
    {
      var pending := out.CanRead();
      if pending {
        send := send.(finished := false);
        return;
      }
      var pipelined := inp.CanRead();
      interest := if !send.finished || pipelined then Write else Read;
    }

    // Runs the command and tries to send its reply.
    method Reply(env: Env, m: nat)
      requires Valid() && CanAnswer(State(), env)
      modifies this`send, this`next, this`reader, this`interest, this`wire, this`err,
               parser.cmd, out, out.data, box, box.mails
      ensures Valid() && (box.mails == old(box.mails) || fresh(box.mails))
      ensures State() == var (c, msg) := Sessions.HandleRequest(old(State()), env);
                         if msg != "" then Sessions.WriteMsg(c, msg, m) else c
    {
      ReplyFits(State(), env);
      var msg := HandleRequest(env);
      if msg != "" {
        WriteFitting(msg, m);
      }
    }

    // trans_process with a complete command.
    method Answer(env: Env, m: nat) returns (to: int)
      requires Valid() && CanAnswer(State(), env)
      modifies this`send, this`next, this`reader, this`interest, this`wire, this`err,
               parser, parser.cmd, parser.arg, out, out.data, box, box.mails
      ensures Valid() && (box.mails == old(box.mails) || fresh(box.mails))
      ensures (State(), to) == Sessions.Answer(old(State()), env, m)
    {
      Reply(env, m);
      to := Conclude();
    }

    // The rest of trans_process.
    method Conclude() returns (to: int)
      requires Valid()
      modifies this`send, this`interest, parser, parser.cmd, parser.arg
      ensures Valid()
      ensures var c := Sessions.AfterReply(old(State()));
              (State(), to) == (if c.next == TRANSACTION then c.(parser := INIT_P) else c, c.next)
    {
      AfterReply();
      to := next;
      if to == TRANSACTION {
        parser.Init();
      }
    }

    // trans_process between two replies.
    method NextCommand(env: Env, m: nat) returns (to: int)
      requires Valid() && ParseReady(State(), env)
      modifies this`send, this`next, this`reader, this`interest, this`wire, this`err,
               parser, parser.cmd, parser.arg, inp, inp.data, out, out.data, box, box.mails
      ensures Valid() && (box.mails == old(box.mails) || fresh(box.mails))
      ensures (State(), to) == Sessions.TransParsed(Sessions.Consume(old(State())), env, m)
    {
      Consume();
      to := TransAfterParsing(env, m);
    }

    method TransAfterParsing(env: Env, m: nat) returns (to: int)
      requires Valid() && CanAnswer(State(), env)
      modifies this`send, this`next, this`reader, this`interest, this`wire, this`err,
               parser, parser.cmd, parser.arg, out, out.data, box, box.mails
      ensures Valid() && (box.mails == old(box.mails) || fresh(box.mails))
      ensures (State(), to) == Sessions.TransParsed(old(State()), env, m)
    {
      if parser.ended {
        to := Answer(env, m);
      } else {
        interest := Read;
        to := TRANSACTION;
      }
    }

    /** trans_process */
    method TransProcess(env: Env, m: nat) returns (to: int)
      requires Valid() && TransReady(State(), env)
      modifies this`send, this`next, this`reader, this`interest, this`wire, this`err, this`listed,
               parser, parser.cmd, parser.arg, inp, inp.data, out, out.data, box, box.mails
      ensures Valid() && (box.mails == old(box.mails) || fresh(box.mails))
      ensures (State(), to) == Sessions.TransProcess(old(State()), env, m)
    {
      if !send.finished {
        to := SendData(env, m);
      } else if send.multiline {
        to := SendTerminator(m);
      } else {
        var more := inp.CanRead();
        if !more {
          interest := Read;
          to := TRANSACTION;
        } else {
          to := NextCommand(env, m);
        }
      }
    }

    // ---------- AUTH, the pipe, UPDATE, the greeting ----------

    // auth_process once the reply was tried.
    method AuthReplied() returns (to: int)
      requires Valid()
      modifies this`send, this`interest, this`next, parser, parser.cmd, parser.arg
      ensures Valid() && (State(), to) == Sessions.AuthReplied(old(State()))
    {
      var pending := out.CanRead();
      if pending {
        send := send.(finished := false);
        to := AUTH;
      } else {
        WriteIfPipelined();
        to := TakeNext();
      }
    }

    // Where to go, and a fresh parser if that is another command.
    method TakeNext() returns (to: int)
      requires Valid()
      modifies this`next, parser, parser.cmd, parser.arg
      ensures Valid() && to == if old(next) == -1 then AUTH else old(next)
      ensures State() == var c := old(State()); c.(next := -1, parser := if to == AUTH then INIT_P else c.parser)
    {
      to := if next == -1 then AUTH else next;
      next := -1;
      if to == AUTH {
        parser.Init();
      }
    }

    method WriteIfPipelined()
      requires Valid()
      modifies this`interest
      ensures Valid()
      ensures State() == old(State()).(interest := if old(inp.Model()).content != [] then Write else Read)
    {
      var pipelined := inp.CanRead();
      interest := if pipelined then Write else Read;
    }

    // auth_process with a complete command.
    method AuthAnswer(m: nat) returns (to: int)
      requires Valid() && out.Model().Room() >= MAX_REPLY
      modifies this`send, this`interest, this`wire, this`next, this`user, this`err,
               parser, parser.cmd, parser.arg, out, out.data, users.users
      ensures Valid()
      ensures (State(), users.users[..], to) == Sessions.AuthAnswer(old(State()), old(users.users[..]), m)
    {
      AuthReply(m);
      to := AuthReplied();
    }

    // Runs the command and tries to send its reply.
    method AuthReply(m: nat)
      requires Valid() && out.Model().Room() >= MAX_REPLY
      modifies this`wire, this`next, this`user, this`err, parser`quit, out, out.data, users.users
      ensures Valid()
      ensures var (c, after, ok) := Sessions.ProcessCmd(old(State()), old(users.users[..]));
              users.users[..] == after && State() == Sessions.WriteMsg(c, Sessions.GenerateMsg(c, after, ok), m)
    {
      var ok := ProcessCmd();
      var msg := GenerateMsg(ok);
      AuthMsgIsShort(State(), users.users[..], ok);
      WriteFitting(msg, m);
    }

    /** auth_process */
    method AuthProcess(m: nat) returns (to: int)
      requires Valid() && inp.Model().Normal() && AllLegal(inp.Model().content) && out.Model().Normal()
      requires out.data.Length == BUFFER_SIZE
      modifies this`send, this`interest, this`wire, this`next, this`user, this`err,
               parser, parser.cmd, parser.arg, inp, inp.data, out, out.data, users.users
      ensures Valid()
      ensures (State(), users.users[..], to) == Sessions.AuthProcess(old(State()), old(users.users[..]), m)
    {
      var pending := out.CanRead();
      if !send.finished {
        to := AuthUnsent(m);
      } else if pending {
        send := send.(finished := false);
        to := AUTH;
      } else {
        to := AuthNext(m);
      }
    }

    // auth_process between two replies.
    method AuthNext(m: nat) returns (to: int)
      requires Valid() && inp.Model().Normal() && AllLegal(inp.Model().content) && out.Model().Room() >= MAX_REPLY
      modifies this`send, this`interest, this`wire, this`next, this`user, this`err,
               parser, parser.cmd, parser.arg, inp, inp.data, out, out.data, users.users
      ensures Valid()
      ensures (State(), users.users[..], to) ==
              AuthParsed(Sessions.Consume(old(State())), old(users.users[..]), m)
    {
      Consume();
      to := AuthAfterParsing(m);
    }

    method AuthAfterParsing(m: nat) returns (to: int)
      requires Valid() && out.Model().Room() >= MAX_REPLY
      modifies this`send, this`interest, this`wire, this`next, this`user, this`err,
               parser, parser.cmd, parser.arg, out, out.data, users.users
      ensures Valid()
      ensures (State(), users.users[..], to) == AuthParsed(old(State()), old(users.users[..]), m)
    {
      if parser.ended {
        to := AuthAnswer(m);
      } else {
        interest := Read;
        to := AUTH;
      }
    }

    // The branch of auth_process that was meant to send the rest of a reply.
    method AuthUnsent(m: nat) returns (to: int)
      requires Valid() && !send.finished
      modifies this`send, this`wire, out, out.data
      ensures Valid()
      ensures (State(), to) == var c := old(State());
                               if c.out.content != [] then (c.(finished := true), AUTH)
                               else (Sessions.SendSome(c, 0, m).(finished := true), c.next)
    {
      var pending := out.CanRead();
      if pending {
        to := AUTH;
      } else {
        var _ := SendSome(0, m);
        to := next;
      }
      send := send.(finished := true);
    }

    /** change_interests */
    method ChangeInterests()
      requires Valid() && reader.Registered?
      modifies this`interest, this`reader
      ensures Valid() && State() == old(State()).(interest := Write, reader := old(reader).(interest := NoOp))
    {
      interest := Write;
      reader := reader.(interest := NoOp);
    }

    // handle_file_reader at the end of the pipe.
    method EndOfPipe(env: Env)
      requires Valid() && reader.Registered? && (env.external ==> out.Model().Room() >= 2)
      modifies this`reader, this`send, out`write, out.data
      ensures Valid()
      ensures State() == var c := old(State());
                         c.(reader := Unregistered, filler := NoFiller,
                            out := if env.external then c.out.Put("\r\n") else c.out)
    {
      reader := Unregistered;
      send := send.(filler := NoFiller);
      if env.external {
        out.Put("\r\n");
      }
    }

    /** handle_file_reader. What an external program's output is completed with is not checked for room. */
    method HandleFileReader(env: Env, k: nat)
      requires Valid() && reader.Registered?
      requires env.external && reader.pipe == [] ==> out.Model().Room() != 1
      modifies this`reader, this`interest, this`send, out`write, out.data
      ensures Valid() && State() == PipeReady(old(State()), env, k)
    {
      var room := out.WriteLimit();
      ChangeInterests();
      if room == 0 {
      } else if reader.pipe == [] {
        EndOfPipe(env);
      } else {
        var n := Min(k, Min(room, |reader.pipe|));
        var bytes := reader.pipe[..n];
        reader := Registered(NoOp, reader.pipe[n..]);
        out.Put(bytes);
      }
    }

    /** update_process */
    method UpdateProcess(env: Env, m: nat) returns (to: int)
      requires Valid() && IsNewDir(env.dir) && DropOk(box.Model()) && out.Model().Room() >= MAX_REPLY
      modifies this`next, this`wire, this`err, out, out.data, disk
      ensures Valid() && (State(), to) == Sessions.UpdateProcess(old(State()), env, m)
    {
      FarewellIsShort(box.Model());
      var nRead := CommitFiles(env);
      var msg := Report(nRead);
      to := SendLast(msg, m);
    }

    // The farewell is written, one send is tried, and the connection is done.
    method SendLast(msg: string, m: nat) returns (to: int)
      requires Valid() && out.Model().Room() >= MAX_REPLY >= |msg|
      modifies this`next, this`wire, this`err, out, out.data
      ensures Valid() && to == DONE && State() == Sessions.WriteMsg(old(State()), msg, m).(next := DONE)
    {
      WriteFitting(msg, m);
      next := DONE;
      to := next;
    }

    // The loop of handle_request in update.c.
    method CommitFiles(env: Env) returns (nRead: nat)
      requires Valid() && IsNewDir(env.dir)
      modifies disk
      ensures Valid() && nRead == CountRead(old(box.Model()).mails)
      ensures State() == old(State()).(fs := Commit(old(disk.files), env.dir, old(box.Model()).mails))
    {
      nRead := box.CommitMarks(disk, env.dir);
    }

    // The message of handle_request in update.c, where every removal and move reports success.
    method Report(nRead: nat) returns (msg: string)
      requires nRead == CountRead(box.Model().mails)
      ensures msg == Farewell(box.Model())
    {
      var len := if box.mails == null then 0 else box.mails.Length;
      msg := SigningOff(len, box.ndel, nRead);
    }

    /** write_greeting */
    method SendGreeting(m: nat) returns (to: int)
      requires Valid()
      modifies this`wire, this`interest
      ensures Valid() && (State(), to) == WriteGreeting(old(State()), m)
    {
      var written := Min(m, |GREETING|);
      wire := wire + GREETING[..written];
      if written != |GREETING| {
        return ERROR_POP3;
      }
      interest := Read;
      to := AUTH;
    }
  }

  lemma ConsumeIsDrained(c: Client)
    ensures Sessions.Consume(c) ==
            c.(parser := Drained(Pop3, c.parser, c.inp).0, inp := Drained(Pop3, c.parser, c.inp).1)
  {
  }

  lemma SigningOffIsShort(len: nat, ndel: nat, nRead: nat)
    requires len < 0x1_0000_0000 && ndel < 0x1_0000_0000
    ensures |SigningOff(len, ndel, nRead)| <= MAX_REPLY
  {
    SignOffIsShort(U32(len - ndel - nRead), U32(len - nRead), ndel, len);
  }

  lemma FarewellIsShort(d: Drop)
    requires DropOk(d)
    ensures |Farewell(d)| <= MAX_REPLY
  {
    SigningOffIsShort(|d.mails|, d.ndel, CountRead(d.mails));
  }

  // Before the input is parsed.
  ghost predicate ParseReady(c: Client, env: Env) {
    c.inp.Normal() && AllLegal(c.inp.content) && CanAnswer(Sessions.Consume(c), env)
  }

  // What trans_process relies on.
  ghost predicate TransReady(c: Client, env: Env) {
    && (c.filler == ListAllNew ==> c.maildir.loaded && c.listed <= |c.maildir.mails|)
    && (c.finished && !c.multiline ==> ParseReady(c, env))
  }

  /** In every state TRANSACTION can reach, it may. */
  lemma InvIsReady(c: Client, env: Env)
    requires Inv(c, env) && c.interest == Write
    ensures TransReady(c, env)
  {
    if c.finished && !c.multiline {
      AfterParsing(c, env);
    }
  }

  /** The pipe never meets a full buffer: that branch of handle_file_reader is dead, and there is always room for
      what its end may add. */
  lemma PipeHasRoom(c: Client, env: Env)
    requires Inv(c, env) && c.reader.Registered? && c.reader.interest == Read
    ensures c.out.Room() >= BUFFER_SIZE - MAX_REPLY - 3
  {
  }

  // Before a complete command is answered.
  ghost predicate CanAnswer(c: Client, env: Env) {
    EnvOk(env) && BuffersOk(c) && DropOk(c.maildir) && Idle(c) && c.out.read + |c.out.content| <= 3
  }

  lemma AfterParsing(c: Client, env: Env)
    requires Inv(c, env) && c.interest == Write && c.finished && !c.multiline
    ensures c.inp.content != []
    ensures CanAnswer(Sessions.Consume(c), env)
  {
    ConsumeLeaves(c);
  }

  // A reply always fits in the output buffer.
  lemma ReplyFits(c: Client, env: Env)
    requires CanAnswer(c, env)
    ensures var (r, msg) := Sessions.HandleRequest(c, env); r.out == c.out && |msg| <= r.out.Room()
  {
    if VerbOf(Upper(c.parser.cmd)) == QuitV {
      QuitAgrees(c, env);
    } else {
      RequestAgrees(c, env);
    }
  }
}
