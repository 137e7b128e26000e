/** One POP3 connection as values: what each handler of auth.c, transaction.c, fileReader.c, writter.c and
    update.c makes of the connection's data. The `Engine` class performs the same steps in place. */
module Sessions {
  import opened Text
  import opened Buffers
  import opened Parsers
  import opened Maildrops
  import opened Replies
  import Users

  // enum pop3_states
  const GREETING_WRITE: int := 0
  const AUTH: int := 1
  const TRANSACTION: int := 2
  const UPDATE: int := 3
  const DONE: int := 4
  const ERROR_POP3: int := 5

  const MAX_BYTES_SEND: nat := 256

  datatype ErrCode =
    | NoErr | BadCommand | UnknownUser | BadChar | WrongPassword | PassBeforeUser | AlreadyOnline | UnknownError

  datatype Interest = NoOp | Read | Write

  /** The descriptor of the RETR pipe: its interest and the bytes it has yet to deliver. */
  datatype Reader = Unregistered | Registered(interest: Interest, pipe: string)

  /** `send.f`. */
  datatype Filler = NoFiller | ListAllNew | LoadMore

  /** What the session finds outside: the directory `new/`, its path, and whether RETR pipes mails
      through a program other than cat. */
  datatype Env = Env(listing: Listing, dir: string, external: bool)

  /** client_data, plus the bytes put on the wire and the files of the maildrop. */
  datatype Client = Client(
    parser: P, finished: bool, file: bool, multiline: bool, filler: Filler,
    err: ErrCode, user: string, next: int, out: Buf, inp: Buf, listed: nat,
    maildir: Drop, interest: Interest, reader: Reader, wire: string, fs: Files)

  // ---------- receiving (auth_read, trans_read) ----------

  datatype Recv = Failed | Closed | Got(bytes: string)

  /** The room offered to recv. */
  function RecvRoom(c: Client): int {
    if c.inp.Room() <= 0 then c.inp.Compact().Room() else c.inp.Room()
  }

  /** The read handlers of AUTH and TRANSACTION differ only in the state they stay in. */
  function Receive(c: Client, r: Recv, stay: int): (Client, int) {
    if !c.finished then (c.(interest := Write), stay)
    else
      var b := if c.inp.Room() <= 0 then c.inp.Compact() else c.inp;
      if b.Room() <= 0 then
        if c.out.content != [] then (c.(inp := b, interest := Write), stay)
        else (c.(inp := b, err := UnknownError), ERROR_POP3)
      else
        match r
        case Failed => (c.(inp := b, err := UnknownError), ERROR_POP3)
        case Closed => (c.(inp := b), DONE)
        case Got(bytes) => (c.(inp := b.Put(Take(bytes, b.Room())), interest := Write), stay)
  }

  // ---------- sending ----------

  /** One send() of which the peer takes up to `m` bytes of the first `limit` offered. */
  function SendSome(c: Client, limit: nat, m: nat): Client {
    var n := Min(m, Min(|c.out.content|, limit));
    c.(out := c.out.Advance(n), wire := c.wire + c.out.content[..n])
  }

  /** write_msg, then the caller's buffer_read_adv by what was sent. */
  function WriteMsg(c: Client, msg: string, m: nat): Client {
    SendSome(c.(out := c.out.Put(msg)), |c.out.content| + |msg|, m)
  }

  /** buffer_read over everything the parser consumed. */
  function Consume(c: Client): Client {
    var (q, rest) := Feed(Pop3, c.parser, c.inp.content);
    c.(parser := q, inp := c.inp.Advance(|c.inp.content| - |rest|))
  }

  // ---------- AUTH ----------

  datatype AuthVerb = QuitA | UserA | PassA | CapaA | NoAuthVerb

  /** The strcmp chain of process_cmd, on the name as received. */
  function AuthVerbOf(cmd: string): AuthVerb {
    if cmd == "QUIT" then QuitA
    else if cmd == "USER" then UserA
    else if cmd == "PASS" then PassA
    else if cmd == "CAPA" then CapaA
    else NoAuthVerb
  }

  /** What the commands of AUTH decide: the name held, the error to report and the next state. */
  datatype Login = Login(user: string, err: ErrCode, next: int)

  function AuthUser(l: Login, slots: Users.Slots, name: string): (Login, Users.Slots, bool) {
    if !Users.Exists(slots, name) then (l.(err := UnknownUser, next := AUTH), slots, false)
    else if Users.GetState(slots, name) != Users.Offline then (l.(err := AlreadyOnline, next := AUTH), slots, false)
    else
      var released := if l.user != "" then Users.SetState(slots, l.user, Users.Offline) else slots;
      (l.(next := AUTH, user := name), Users.SetState(released, name, Users.Logging), true)
  }

  function AuthPass(l: Login, slots: Users.Slots, pass: string): (Login, Users.Slots, bool) {
    if l.user == "" then (l.(err := PassBeforeUser, next := AUTH), slots, false)
    else if !Users.CheckPass(slots, l.user, pass) then
      (l.(user := "", err := WrongPassword, next := AUTH), Users.SetState(slots, l.user, Users.Offline), false)
    else (l.(next := TRANSACTION), Users.SetState(slots, l.user, Users.Online), true)
  }

  function AuthCommand(l: Login, slots: Users.Slots, verb: AuthVerb, arg: string): (Login, Users.Slots, bool) {
    match verb
    case QuitA => (l.(next := DONE), slots, true)
    case UserA => AuthUser(l, slots, arg)
    case PassA => AuthPass(l, slots, arg)
    case CapaA => (l.(next := AUTH, err := NoErr), slots, true)
    case NoAuthVerb =>
      if l.err != BadChar then (l.(err := BadCommand, next := AUTH, user := ""), slots, false)
      else (l.(next := ERROR_POP3), slots, false)
  }

  function ProcessCmd(c: Client, slots: Users.Slots): (Client, Users.Slots, bool) {
    var verb := AuthVerbOf(c.parser.cmd);
    var (l, after, ok) := AuthCommand(Login(c.user, c.err, c.next), slots, verb, c.parser.arg);
    (c.(user := l.user, err := l.err, next := l.next, parser := c.parser.(quit := verb == QuitA || c.parser.quit)),
     after, ok)
  }

  function GenerateMsg(c: Client, slots: Users.Slots, ok: bool): string {
    if ok then
      if c.parser.quit then "+OK closing connection\r\n"
      else if Users.GetState(slots, c.user) == Users.Logging then "+OK valid user\r\n"
      else if AuthVerbOf(c.parser.cmd) == CapaA then CAPABILITIES
      else "+OK logged in\r\n"
    else match c.err
      case UnknownUser => "-ERR never heard of that user\r\n"
      case PassBeforeUser => "-ERR cant use PASS before USER\r\n"
      case WrongPassword => "-ERR invalid password :(\r\n"
      case BadCommand => INVALID_COMMAND
      case AlreadyOnline => "-ERR user already online\r\n"
      case _ => "-ERR unknown error\r\n"
  }

  /** auth_process once the reply was tried. */
  function AuthReplied(c: Client): (Client, int) {
    if c.out.content != [] then (c.(finished := false), AUTH)
    else
      var to := if c.next == -1 then AUTH else c.next;
      (c.(interest := if c.inp.content != [] then Write else Read, next := -1,
          parser := if to == AUTH then INIT_P else c.parser), to)
  }

  /** auth_process from a complete command on. */
  function AuthAnswer(c: Client, slots: Users.Slots, m: nat): (Client, Users.Slots, int) {
    var (c1, after, ok) := ProcessCmd(c, slots);
    var (c2, to) := AuthReplied(WriteMsg(c1, GenerateMsg(c1, after, ok), m));
    (c2, after, to)
  }

  /** auth_process once the input was parsed. */
  function AuthParsed(c: Client, slots: Users.Slots, m: nat): (Client, Users.Slots, int) {
    if !c.parser.ended then (c.(interest := Read), slots, AUTH) else AuthAnswer(c, slots, m)
  }

  /** auth_process, with the inverted test that treats unsent bytes as an error of its own. */
  function AuthProcess(c: Client, slots: Users.Slots, m: nat): (Client, Users.Slots, int) {
    if !c.finished then
      if c.out.content != [] then (c.(finished := true), slots, AUTH)
      else (SendSome(c, 0, m).(finished := true), slots, c.next)
    else if c.out.content != [] then (c.(finished := false), slots, AUTH)
    else AuthParsed(Consume(c), slots, m)
  }

  // ---------- TRANSACTION: the commands ----------

  datatype Verb = StatV | ListV | RetrV | DeleV | RsetV | NoopV | QuitV | CapaV | NoVerb

  /** The strcmp chain of handle_request, on the upper-cased name. */
  function VerbOf(cmd: string): Verb {
    if cmd == "STAT" then StatV
    else if cmd == "LIST" then ListV
    else if cmd == "RETR" then RetrV
    else if cmd == "DELE" then DeleV
    else if cmd == "RSET" then RsetV
    else if cmd == "NOOP" then NoopV
    else if cmd == "QUIT" then QuitV
    else if cmd == "CAPA" then CapaV
    else NoVerb
  }

  // `mails->len - mails->ndel` and `size - del_size`, in their C types.
  function KeptCount(d: Drop): nat {
    U32(|d.mails| - d.ndel)
  }

  function KeptSize(d: Drop): nat {
    U64(SizeSum(d.mails) - DelSize(d.mails))
  }

  function CmdStat(c: Client, env: Env): (Client, string) {
    match Load(c.maildir, env.listing)
    case None => (c, SERVER_ERROR)
    case Some(d) => (c.(maildir := d), StatLine(KeptCount(d), KeptSize(d)))
  }

  /** LIST with an argument. */
  function ListNumbered(d: Drop, arg: string): string {
    var n := Atoi(FirstToken(arg));
    match NumberError(n, |d.mails|)
    case Some(msg) => msg
    case None => if d.mails[n - 1].del then IsDeleted(n) else ListOne(n, d.mails[n - 1].file.size)
  }

  function CmdList(c: Client, env: Env): (Client, string) {
    match Load(c.maildir, env.listing)
    case None => (c, SERVER_ERROR)
    case Some(d) =>
      var c1 := c.(maildir := d);
      if c.parser.arg == "" then
        (c1.(finished := false, multiline := true, filler := ListAllNew),
         ListHeader(KeptCount(d), KeptSize(d)))
      else (c1, ListNumbered(d, c.parser.arg))
  }

  /** RETR on an open maildrop: the list, the reply, and the pipe if the mail is to be sent. */
  function RetrNumbered(d: Drop, arg: string): (Drop, string, Option<string>) {
    var n := Atoi(FirstToken(arg));
    match NumberError(n, |d.mails|)
    case Some(msg) => (d, msg, None)
    case None => (SetRead(d, n - 1), RetrHeader(d.mails[n - 1].file.size), Some(d.mails[n - 1].file.output))
  }

  function CmdRetr(c: Client, env: Env): (Client, string) {
    match Load(c.maildir, env.listing)
    case None => (c, SERVER_ERROR)
    case Some(d) =>
      var (d2, msg, pipe) := RetrNumbered(d, c.parser.arg);
      var c1 := c.(maildir := d2);
      match pipe
      case None => (c1, msg)
      case Some(output) =>
        (c1.(file := true, multiline := true, filler := LoadMore, finished := false,
             reader := Registered(Read, output), interest := NoOp),
         msg)
  }

  /** DELE on an open maildrop. */
  function DeleNumbered(d: Drop, arg: string): (Drop, string) {
    if arg == "" then (d, MustGive(|d.mails|))
    else
      var n := Atoi(FirstToken(arg));
      match NumberError(n, |d.mails|)
      case Some(msg) => (d, msg)
      case None => if d.mails[n - 1].del then (d, AlreadyDeleted(n)) else (SetDel(d, n - 1, true), Deleted(n))
  }

  function CmdDele(c: Client, env: Env): (Client, string) {
    match Load(c.maildir, env.listing)
    case None => (c, SERVER_ERROR)
    case Some(d) =>
      var (d2, msg) := DeleNumbered(d, c.parser.arg);
      (c.(maildir := d2), msg)
  }

  function CmdRset(c: Client, env: Env): (Client, string) {
    match Load(c.maildir, env.listing)
    case None => (c, SERVER_ERROR)
    case Some(d) => (c.(maildir := ResetAll(d)), ResetLine(|d.mails|, U64(SizeSum(d.mails))))
  }

  function RunVerb(c: Client, env: Env, verb: Verb): (Client, string) {
    match verb
    case StatV => CmdStat(c, env)
    case ListV => CmdList(c, env)
    case RetrV => CmdRetr(c, env)
    case DeleV => CmdDele(c, env)
    case RsetV => CmdRset(c, env)
    case NoopV => (c, NOOP)
    case QuitV => (c.(next := UPDATE), "")
    case CapaV => (c, CAPABILITIES)
    case NoVerb => (c, INVALID_COMMAND)
  }

  function HandleRequest(c: Client, env: Env): (Client, string) {
    var cmd := Upper(c.parser.cmd);
    RunVerb(c.(parser := c.parser.(cmd := cmd), next := TRANSACTION), env, VerbOf(cmd))
  }

  // ---------- TRANSACTION: filling the output buffer ----------

  /** The index of the first mail not marked for deletion, from `i` on. */
  function NextKept(mails: seq<Mail>, i: nat): (r: nat)
    ensures i <= |mails| ==> i <= r <= |mails|
    ensures forall k :: i <= k < r && k < |mails| ==> mails[k].del
    ensures r < |mails| ==> !mails[r].del
    decreases |mails| - i
  {
    if i < |mails| && mails[i].del then NextKept(mails, i + 1) else i
  }

  /** The line of message `c.listed`, if it exists and fits, or the end of the list. */
  function ListLine(c: Client, d: Drop): Client {
    var i := c.listed;
    if i >= |d.mails| then c.(filler := NoFiller, listed := 0)
    else
      var line := ScanLine(i + 1, d.mails[i].file.size);
      if c.out.Room() < |line| then c
      else
        var c2 := c.(out := c.out.Put(line), listed := i + 1, interest := Write);
        if i + 1 == |d.mails| then c2.(filler := NoFiller, listed := 0) else c2
  }

  /** cmd_list_all_new: one more line of a LIST, or the end of it. */
  function ListMore(c: Client, env: Env): Client {
    match Load(c.maildir, env.listing)
    case None => c
    case Some(d) => ListLine(c.(maildir := d, listed := NextKept(d.mails, c.listed)), d)
  }

  /** load_more_bytes: the client waits for the pipe. */
  function LoadMoreBytes(c: Client): Client {
    c.(interest := NoOp,
       reader := if c.reader.Registered? then c.reader.(interest := Read) else c.reader)
  }

  function WriteTerminator(c: Client): (Client, int) {
    if c.out.Room() < |TERMINATOR| then (c, ERROR_POP3)
    else (c.(out := c.out.Put(TERMINATOR)), TRANSACTION)
  }

  function SendData(c: Client, env: Env, m: nat): (Client, int) {
    var c1 := SendSome(c, MAX_BYTES_SEND, m);
    if |c1.out.content| > 0 then (c1, TRANSACTION)
    else match c.filler
      case ListAllNew => (ListMore(c1, env), TRANSACTION)
      case LoadMore => (LoadMoreBytes(c1), TRANSACTION)
      case NoFiller =>
        if c.multiline then WriteTerminator(c1.(finished := true))
        else (c1.(finished := true, interest := if c.inp.content == [] then Read else c.interest), c.next)
  }

  /** send_terminator: whatever part of the terminator was not sent stays in the buffer. */
  function SendTerminator(c: Client, m: nat): (Client, int) {
    (SendSome(c, MAX_BYTES_SEND, m).(
       finished := true, multiline := false, file := false, filler := NoFiller,
       interest := if c.inp.content == [] then Read else c.interest), c.next)
  }

  /** What is left of the output decides what comes next. */
  function AfterReply(c: Client): Client {
    if c.out.content != [] then c.(finished := false)
    else c.(interest := if !c.finished || c.inp.content != [] then Write else Read)
  }

  /** trans_process from a complete command on. */
  function Answer(c: Client, env: Env, m: nat): (Client, int) {
    var (c1, msg) := HandleRequest(c, env);
    var c2 := AfterReply(if msg != "" then WriteMsg(c1, msg, m) else c1);
    (if c2.next == TRANSACTION then c2.(parser := INIT_P) else c2, c2.next)
  }

  /** trans_process once the input was parsed. */
  function TransParsed(c: Client, env: Env, m: nat): (Client, int) {
    if !c.parser.ended then (c.(interest := Read), TRANSACTION) else Answer(c, env, m)
  }

  function TransProcess(c: Client, env: Env, m: nat): (Client, int) {
    if !c.finished then SendData(c, env, m)
    else if c.multiline then SendTerminator(c, m)
    else if c.inp.content == [] then (c.(interest := Read), TRANSACTION)
    else TransParsed(Consume(c), env, m)
  }

  // ---------- TRANSACTION: the pipe ----------

  /** handle_file_reader, called while the pipe has READ interest; read() yields up to `k` bytes, and
      nothing only at the end of the pipe. */
  function PipeReady(c: Client, env: Env, k: nat): Client
    requires c.reader.Registered?
  {
    var c1 := c.(interest := Write, reader := c.reader.(interest := NoOp));
    if c.out.Room() <= 0 then c1
    else if c.reader.pipe == [] then
      c1.(reader := Unregistered, filler := NoFiller, out := if env.external then c.out.Put("\r\n") else c.out)
    else
      var n := Min(k, Min(c.out.Room(), |c.reader.pipe|));
      c1.(reader := Registered(NoOp, c.reader.pipe[n..]), out := c.out.Put(c.reader.pipe[..n]))
  }

  // ---------- UPDATE ----------

  /** The message of handle_request in update.c, every removal and move having succeeded. */
  function Farewell(d: Drop): string {
    SigningOff(|d.mails|, d.ndel, CountRead(d.mails))
  }

  // The subtractions are unsigned.
  function SigningOff(len: nat, ndel: nat, nRead: nat): string {
    SignOff(U32(len - ndel - nRead), U32(len - nRead), ndel, len)
  }

  function UpdateProcess(c: Client, env: Env, m: nat): (Client, int)
    requires IsNewDir(env.dir)
  {
    (WriteMsg(c.(fs := Commit(c.fs, env.dir, c.maildir.mails)), Farewell(c.maildir), m).(next := DONE), DONE)
  }

  // ---------- GREETING ----------

  function WriteGreeting(c: Client, m: nat): (Client, int) {
    var n := Min(m, |GREETING|);
    var c1 := c.(wire := c.wire + GREETING[..n]);
    if n != |GREETING| then (c1, ERROR_POP3) else (c1.(interest := Read), AUTH)
  }

  /** init_new_client_data, for a connection over the files `fs`. */
  function NewClient(fs: Files): Client {
    Client(INIT_P, true, false, false, NoFiller, NoErr, "", -1, EmptyBuf(BUFFER_SIZE), EmptyBuf(BUFFER_SIZE), 0,
           UNLOADED, Write, Unregistered, "", fs)
  }
}
