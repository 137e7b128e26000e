/** Many sessions over one disk: what one of them commits leaves the mails of every other where they are. */
module Sharing {
  import opened Text
  import opened Maildrops
  import opened Maildirs
  import opened Sessions
  import opened Reference
  import opened Delivery
  import opened Machine
  import opened Schedules
  import opened Lifecycle
  import opened Commits
  import opened Exclusion
  import Users

  // ---------- the paths of different users ----------

  // A name as readdir yields it.
  predicate Slashless(name: string) {
    '/' !in name
  }

  /** A path tells its directory and its file apart. */
  lemma PathsTell(d: string, a: string, e: string, b: string)
    requires Slashless(a) && Slashless(b) && PathOf(d, a) == PathOf(e, b)
    ensures d == e && a == b
  {
    var p := PathOf(d, a);
    assert p[|d|] == '/' && p[|e|] == '/';
    forall k | |d| < k < |p| ensures p[k] != '/' {
      assert p[k] == a[k - |d| - 1];
    }
    forall k | |e| < k < |p| ensures p[k] != '/' {
      assert p[k] == b[k - |e| - 1];
    }
    assert d == p[..|d|] && e == p[..|e|];
    assert a == p[|d| + 1..] && b == p[|e| + 1..];
  }

  lemma HomesTell(u: string, v: string)
    requires HomeOf(u) == HomeOf(v)
    ensures u == v
  {
    var pre, post := "bin/maildirs/", "/Maildir/" + "new";
    assert HomeOf(u) == pre + u + post && HomeOf(v) == pre + v + post;
    assert u == (pre + u + post)[|pre|..|pre| + |u|];
    assert v == (pre + v + post)[|pre|..|pre| + |v|];
  }

  // `cur/` beside `new/`.
  function CurOf(dir: string): string
    requires |dir| >= 3
  {
    dir[..|dir| - 3] + "cur"
  }

  lemma TargetIsPath(dir: string, name: string, flags: string)
    requires |dir| >= 3
    ensures Target(dir, name, flags) == PathOf(CurOf(dir), name + ":2," + flags)
  {
    assert dir[..|dir| - 3] + "cur/" == CurOf(dir) + "/";
  }

  lemma CurIsNotNew(d: string, e: string)
    requires IsNewDir(d) && IsNewDir(e)
    ensures CurOf(d) != e
    ensures CurOf(d) == CurOf(e) ==> d == e
  {
    assert CurOf(d)[|CurOf(d)| - 1] == 'r';
    assert e[|e| - 3..][2] == e[|e| - 1];
    if CurOf(d) == CurOf(e) {
      assert d[..|d| - 3] == CurOf(d)[..|d| - 3] && e[..|e| - 3] == CurOf(e)[..|e| - 3];
      assert d == d[..|d| - 3] + "new" && e == e[..|e| - 3] + "new";
    }
  }

  lemma BelongsToOne(d: string, a: string, f: string, e: string, b: string, g: string)
    requires IsNewDir(d) && IsNewDir(e) && d != e
    requires Slashless(a) && Slashless(b) && IsFlags(f) && IsFlags(g)
    ensures PathOf(d, a) != PathOf(e, b) && PathOf(d, a) != Target(e, b, g)
    ensures Target(d, a, f) != PathOf(e, b) && Target(d, a, f) != Target(e, b, g)
  {
    TargetIsPath(d, a, f);
    TargetIsPath(e, b, g);
    CurIsNotNew(d, e);
    CurIsNotNew(e, d);
    if PathOf(d, a) == PathOf(e, b) { PathsTell(d, a, e, b); }
    if PathOf(d, a) == Target(e, b, g) { PathsTell(d, a, CurOf(e), b + ":2," + g); }
    if Target(d, a, f) == PathOf(e, b) { PathsTell(CurOf(d), a + ":2," + f, e, b); }
    if Target(d, a, f) == Target(e, b, g) { PathsTell(CurOf(d), a + ":2," + f, CurOf(e), b + ":2," + g); }
  }

  // ---------- a commit touches nothing else ----------

  lemma {:induction false} MovesKeepOthers(fs: Files, moves: seq<Move>, p: string)
    requires forall i :: 0 <= i < |moves| ==> moves[i].from != p && moves[i].to != p
    ensures var after := ApplyMoves(fs, moves); (p in after <==> p in fs) && (p in fs ==> after[p] == fs[p])
  {
    if moves != [] {
      MovesKeepOthers(fs, moves[..|moves| - 1], p);
    }
  }

  ghost predicate Tidy(mails: seq<Mail>) {
    forall i :: 0 <= i < |mails| ==> Slashless(mails[i].file.name)
  }

  /** A commit in one home leaves every path of another as it is. */
  lemma CommitStaysHome(fs: Files, d: string, mails: seq<Mail>, e: string, name: string, flags: string)
    requires IsNewDir(d) && IsNewDir(e) && d != e && Tidy(mails) && Slashless(name) && IsFlags(flags)
    ensures var after := Commit(fs, d, mails);
            var p, q := PathOf(e, name), Target(e, name, flags);
            && (p in after <==> p in fs) && (p in fs ==> after[p] == fs[p])
            && (q in after <==> q in fs)
  {
    var v := MovesOf(d, mails);
    forall i | 0 <= i < |v|
      ensures v[i].from != PathOf(e, name) && v[i].to != PathOf(e, name)
      ensures v[i].from != Target(e, name, flags) && v[i].to != Target(e, name, flags)
    {
      BelongsToOne(d, mails[i].file.name, FlagsOf(mails[i]), e, name, flags);
    }
    MovesKeepOthers(fs, v, PathOf(e, name));
    MovesKeepOthers(fs, v, Target(e, name, flags));
  }

  /** The mails of a list are where they were, with the same bytes. */
  ghost predicate InPlace(before: Files, after: Files, dir: string, mails: seq<Mail>) {
    forall i :: 0 <= i < |mails| ==>
      var p := PathOf(dir, mails[i].file.name);
      (p in after <==> p in before) && (p in before ==> p in after && after[p] == before[p])
  }

  lemma StoredElsewhere(fs: Files, d: string, mails: seq<Mail>, e: string, theirs: seq<Mail>)
    requires IsNewDir(d) && d != e && Tidy(mails) && Tidy(theirs) && Storable(fs, e, theirs)
    ensures var after := Commit(fs, d, mails); Storable(after, e, theirs) && InPlace(fs, after, e, theirs)
  {
    var after := Commit(fs, d, mails);
    forall i | 0 <= i < |theirs|
      ensures var name := theirs[i].file.name;
              var p := PathOf(e, name);
              && p in after && p in fs && after[p] == fs[p]
              && Target(e, name, "S") !in after && Target(e, name, "T") !in after && Target(e, name, "ST") !in after
    {
      var name := theirs[i].file.name;
      CommitStaysHome(fs, d, mails, e, name, "S");
      CommitStaysHome(fs, d, mails, e, name, "T");
      CommitStaysHome(fs, d, mails, e, name, "ST");
    }
  }

  // ---------- every step of the world ----------

  /** Sound, and what each connection has loaded is its list. */
  ghost predicate Filed(w: World, envs: Places) {
    Sound(w, envs) && ListsOk(w.conns, envs)
  }

  // The directory of a place has no part in what it lists.
  lemma SameMailsAnywhere(env: Env, dir: string, box: Box)
    ensures SameMails(env.(dir := dir), None, box) <==> SameMails(env, None, box)
  {
  }

  lemma SeenIsFiled(w: World, envs: Places, id: nat)
    requires Filed(w, envs) && id in w.conns && !w.conns[id].closed
    ensures FilesOk(Seen(w.conns[id], w.files), PlaceOf(w, envs, id), w.files)
  {
    SeenIsOk(w, envs, id);
    SameMailsAnywhere(envs(id), HomeOf(w.conns[id].c.user), BoxOf(w.conns[id].c.maildir));
  }

  /** The shared files change exactly when UPDATE closes a connection, by its marks, in its user's home. */
  lemma DispatchFiles(w: World, envs: Places, id: nat, e: Event)
    requires Filed(w, envs) && Possible(w, Dispatch(id, e))
    ensures var z := Next(w, envs, Dispatch(id, e));
            var y := z.conns[id];
            && SameMails(envs(id), None, BoxOf(y.c.maildir)) && DropOk(y.c.maildir)
            && z.files ==
               if Committed(y) then Commit(w.files, HomeOf(w.conns[id].c.user), y.c.maildir.mails) else w.files
  {
    var place := PlaceOf(w, envs, id);
    SeenIsFiled(w, envs, id);
    FilesStep(Seen(w.conns[id], w.files), place, w.files, w.table.slots, e);
    var y := Step(Seen(w.conns[id], w.files), place, w.table.slots, e).0;
    SameMailsAnywhere(envs(id), place.dir, BoxOf(y.c.maildir));
  }

  ghost predicate ListsOk(conns: map<nat, Conn>, envs: Places) {
    forall id :: id in conns ==>
      SameMails(envs(id), None, BoxOf(conns[id].c.maildir)) && DropOk(conns[id].c.maildir)
  }

  lemma OneListChanged(conns: map<nat, Conn>, envs: Places, id: nat, y: Conn)
    requires ListsOk(conns, envs) && SameMails(envs(id), None, BoxOf(y.c.maildir)) && DropOk(y.c.maildir)
    ensures ListsOk(conns[id := y], envs)
  {
  }

  lemma DispatchedConns(w: World, envs: Places, id: nat, e: Event)
    requires PlacesOk(envs) && Possible(w, Dispatch(id, e))
    ensures var z := Next(w, envs, Dispatch(id, e)); id in z.conns && z.conns == w.conns[id := z.conns[id]]
  {
  }

  lemma DispatchKeepsLists(w: World, envs: Places, id: nat, e: Event)
    requires Filed(w, envs) && Possible(w, Dispatch(id, e))
    ensures ListsOk(Next(w, envs, Dispatch(id, e)).conns, envs)
  {
    DispatchFiles(w, envs, id, e);
    DispatchedConns(w, envs, id, e);
    OneListChanged(w.conns, envs, id, Next(w, envs, Dispatch(id, e)).conns[id]);
  }

  lemma AcceptKeepsLists(w: World, envs: Places, id: nat)
    requires Filed(w, envs) && id !in w.conns
    ensures ListsOk(Next(w, envs, Accept(id)).conns, envs)
  {
    OneListChanged(w.conns, envs, id, NewConn(w.files));
  }

  lemma FiledStep(w: World, envs: Places, h: Happening)
    requires Filed(w, envs) && Possible(w, h) && !Breaks(w, h)
    ensures Filed(Next(w, envs, h), envs)
  {
    SoundStep(w, envs, h);
    match h
    case Dispatch(id, e) => DispatchKeepsLists(w, envs, id, e);
    case Accept(id) => AcceptKeepsLists(w, envs, id);
    case _ =>
  }

  // ---------- one session among others ----------

  lemma JumpKeepsHolder(x: Conn, c: Client, to: int, slots: Users.Slots)
    ensures Finish(x.(c := c), to, slots).0.c.user == c.user
  {
  }

  /** A session keeps its user. */
  lemma SessionKeepsUser(x: Conn, env: Env, slots: Users.Slots, e: Event)
    requires InSession(x, env) && Enabled(x, e)
    ensures Step(x, env, slots, e).0.c.user == x.c.user
  {
    match e
    case Readable(r) =>
      ReceiveKeepsUser(x.c, r, TRANSACTION);
      JumpKeepsHolder(x, Receive(x.c, r, TRANSACTION).0, Receive(x.c, r, TRANSACTION).1, slots);
    case Writable(m) =>
      if x.current == Some(TRANSACTION) {
        TransStep(x.c, env, m, "");
        JumpKeepsHolder(x, TransProcess(x.c, env, m).0, TransProcess(x.c, env, m).1, slots);
      } else {
        UpdateResult(x, env, slots, m);
        WriteMsgMoves(x.c.(fs := Commit(x.c.fs, env.dir, x.c.maildir.mails)), Farewell(x.c.maildir), m);
      }
    case PipeReadable(k) => PipeStep(x.c, env, k);
  }

  // The list of a place, empty if `new/` cannot be read.
  function ListOf(env: Env): seq<Mail> {
    MailsOf(Open(env, None))
  }

  /** A session whose mails are all in its home, with room to file each of them. */
  ghost predicate Settled(w: World, envs: Places, j: nat) {
    && j in w.conns && InMaildrop(w.conns[j])
    && Tidy(ListOf(envs(j))) && Storable(w.files, HomeOf(w.conns[j].c.user), ListOf(envs(j)))
  }

  lemma SessionGoesOn(x: Conn, env: Env, slots: Users.Slots, e: Event)
    requires InSession(x, env) && Enabled(x, e)
    ensures var y := Step(x, env, slots, e).0;
            y.c.user == x.c.user && (!y.closed ==> InMaildrop(y) && y.c.fs == x.c.fs)
  {
    SessionKeepsUser(x, env, slots, e);
    EventConserves(x, env, slots, e, "");
  }

  lemma MaildropIsSession(x: Conn, env: Env)
    requires ConnInv(x, env) && InMaildrop(x)
    ensures InSession(x, env)
  {
    NotYetEntered(x, UPDATE);
  }

  // Its own event, if it does not close it.
  lemma OwnEventKeeps(w: World, envs: Places, j: nat, e: Event)
    requires Filed(w, envs) && Settled(w, envs, j) && Possible(w, Dispatch(j, e))
    ensures var z := Next(w, envs, Dispatch(j, e));
            && z.conns[j].c.user == w.conns[j].c.user
            && (!z.conns[j].closed ==> z.files == w.files && InMaildrop(z.conns[j]))
  {
    var x := Seen(w.conns[j], w.files);
    SeenIsOk(w, envs, j);
    MaildropIsSession(x, PlaceOf(w, envs, j));
    SessionGoesOn(x, PlaceOf(w, envs, j), w.table.slots, e);
  }

  // The commit of another session.
  lemma OthersCommitKeeps(w: World, envs: Places, i: nat, e: Event, j: nat)
    requires Filed(w, envs) && Settled(w, envs, j) && i != j && Possible(w, Dispatch(i, e))
    requires forall id :: Tidy(ListOf(envs(id)))
    ensures var z := Next(w, envs, Dispatch(i, e));
            var home := HomeOf(w.conns[j].c.user);
            Storable(z.files, home, ListOf(envs(j))) && InPlace(w.files, z.files, home, ListOf(envs(j)))
  {
    DispatchFiles(w, envs, i, e);
    var y := Next(w, envs, Dispatch(i, e)).conns[i];
    if Committed(y) {
      CommitterHolds(w, envs, i, e);
      TidyList(envs(i), y.c.maildir);
      HomesDiffer(w, i, j);
      StoredElsewhere(w.files, HomeOf(w.conns[i].c.user), y.c.maildir.mails,
                      HomeOf(w.conns[j].c.user), ListOf(envs(j)));
    }
  }

  // Only a session commits, and it holds its user's name.
  lemma CommitterHolds(w: World, envs: Places, i: nat, e: Event)
    requires Filed(w, envs) && Possible(w, Dispatch(i, e))
    requires Committed(Next(w, envs, Dispatch(i, e)).conns[i])
    ensures InMaildrop(w.conns[i]) && HeldBy(w.conns[i]) != ""
  {
    SeenIsOk(w, envs, i);
    OnlySessionsCommit(Seen(w.conns[i], w.files), PlaceOf(w, envs, i), w.table.slots, e);
  }

  lemma OnlySessionsCommit(x: Conn, env: Env, slots: Users.Slots, e: Event)
    requires ConnInv(x, env) && Enabled(x, e) && Committed(Step(x, env, slots, e).0)
    ensures x.current == Some(TRANSACTION) || x.current == Some(UPDATE)
  {
    if x.current == Some(AUTH) {
      AuthNeverCommits(x, env, slots, e);
    } else if x.current == None {
      GreetingNeverCommits(x, env, slots, e.m);
    }
  }

  lemma GreetingNeverCommits(x: Conn, env: Env, slots: Users.Slots, m: nat)
    requires ConnInv(x, env) && x.current == None
    ensures !Committed(OnWrite(x, env, slots, m).0)
  {
  }

  lemma AuthNeverCommits(x: Conn, env: Env, slots: Users.Slots, e: Event)
    requires ConnInv(x, env) && x.current == Some(AUTH) && Enabled(x, e)
    ensures !Committed(Step(x, env, slots, e).0)
  {
    match e
    case Readable(r) =>
      AuthReceives(x.c, r);
      LeavesUncommitted(x, Receive(x.c, r, AUTH).0, Receive(x.c, r, AUTH).1, slots);
    case Writable(m) =>
      AuthStep(x.c, slots, m);
      var (c, after, to) := AuthProcess(x.c, slots, m);
      LeavesUncommitted(x, c, to, after);
    case PipeReadable(k) =>
  }

  lemma TidyList(env: Env, d: Drop)
    requires SameMails(env, None, BoxOf(d)) && Tidy(ListOf(env)) && DropOk(d)
    ensures Tidy(d.mails)
  {
  }

  lemma HomesDiffer(w: World, i: nat, j: nat)
    requires Exclusive(w.conns) && i in w.conns && j in w.conns && i != j
    requires HeldBy(w.conns[i]) != "" && !w.conns[j].closed
    ensures !w.conns[i].closed && HomeOf(w.conns[i].c.user) != HomeOf(w.conns[j].c.user)
  {
    if HomeOf(w.conns[i].c.user) == HomeOf(w.conns[j].c.user) {
      HomesTell(w.conns[i].c.user, w.conns[j].c.user);
    }
  }

  // ---------- every history ----------

  ghost predicate AllTidy(envs: Places) {
    forall id :: Tidy(ListOf(envs(id)))
  }

  // A session before and after a happening that does not close it.
  ghost predicate StaysSettled(w: World, z: World, envs: Places, j: nat)
    requires j in w.conns
  {
    && j in z.conns && z.conns[j].c.user == w.conns[j].c.user
    && (!z.conns[j].closed ==>
          && Settled(z, envs, j)
          && InPlace(w.files, z.files, HomeOf(w.conns[j].c.user), ListOf(envs(j))))
  }

  lemma OwnStep(w: World, envs: Places, j: nat, e: Event)
    requires Filed(w, envs) && Possible(w, Dispatch(j, e)) && Settled(w, envs, j)
    ensures StaysSettled(w, Next(w, envs, Dispatch(j, e)), envs, j)
  {
    OwnEventKeeps(w, envs, j, e);
  }

  lemma OthersStep(w: World, envs: Places, i: nat, e: Event, j: nat)
    requires Filed(w, envs) && AllTidy(envs) && Possible(w, Dispatch(i, e)) && i != j && Settled(w, envs, j)
    ensures StaysSettled(w, Next(w, envs, Dispatch(i, e)), envs, j)
  {
    OthersCommitKeeps(w, envs, i, e, j);
    DispatchedConns(w, envs, i, e);
  }

  lemma QuietStep(w: World, envs: Places, j: nat, h: Happening)
    requires PlacesOk(envs) && Possible(w, h) && !h.Dispatch? && Settled(w, envs, j)
    ensures StaysSettled(w, Next(w, envs, h), envs, j)
  {
  }

  /** Any happening leaves a settled session settled, its user the same and its mails in place, unless it is the
      event that closes that session. */
  lemma SettledStep(w: World, envs: Places, j: nat, h: Happening)
    requires Filed(w, envs) && AllTidy(envs) && Possible(w, h) && Settled(w, envs, j)
    ensures StaysSettled(w, Next(w, envs, h), envs, j)
  {
    match h
    case Dispatch(i, e) =>
      if i == j {
        OwnStep(w, envs, j, e);
      } else {
        OthersStep(w, envs, i, e, j);
      }
    case _ => QuietStep(w, envs, j, h);
  }

  // A closed connection is left alone.
  lemma {:induction false} ClosedStays(w: World, envs: Places, j: nat, run: seq<Happening>)
    requires PlacesOk(envs) && History(w, envs, run) && j in w.conns && w.conns[j].closed
    ensures var z := Final(w, envs, run); j in z.conns && z.conns[j].closed
    decreases |run|
  {
    if run != [] {
      ClosedStays(Next(w, envs, run[0]), envs, j, run[1..]);
    }
  }

  lemma InPlaceTogether(a: Files, b: Files, c: Files, dir: string, mails: seq<Mail>)
    requires InPlace(a, b, dir, mails) && InPlace(b, c, dir, mails)
    ensures InPlace(a, c, dir, mails)
  {
  }

  /** Over every history, whatever other sessions log in, mark and commit: as long as a session is open its mails are
      all in its home with the bytes they had, and there is still room to file each of them. */
  lemma {:induction false} SessionsDoNotDisturb(w: World, envs: Places, j: nat, run: seq<Happening>)
    requires Filed(w, envs) && AllTidy(envs) && Settled(w, envs, j) && History(w, envs, run)
    ensures var z := Final(w, envs, run);
            && Filed(z, envs) && j in z.conns
            && (!z.conns[j].closed ==>
                  && z.conns[j].c.user == w.conns[j].c.user && Settled(z, envs, j)
                  && InPlace(w.files, z.files, HomeOf(w.conns[j].c.user), ListOf(envs(j))))
    decreases |run|
  {
    if run != [] {
      var next := Next(w, envs, run[0]);
      FiledStep(w, envs, run[0]);
      SettledStep(w, envs, j, run[0]);
      if next.conns[j].closed {
        FiledForever(next, envs, run[1..]);
        ClosedStays(next, envs, j, run[1..]);
      } else {
        SessionsDoNotDisturb(next, envs, j, run[1..]);
        if !Final(w, envs, run).conns[j].closed {
          InPlaceTogether(w.files, next.files, Final(w, envs, run).files, HomeOf(w.conns[j].c.user), ListOf(envs(j)));
        }
      }
    }
  }

  lemma {:induction false} FiledForever(w: World, envs: Places, run: seq<Happening>)
    requires Filed(w, envs) && History(w, envs, run)
    ensures Filed(Final(w, envs, run), envs)
    decreases |run|
  {
    if run != [] {
      FiledStep(w, envs, run[0]);
      FiledForever(Next(w, envs, run[0]), envs, run[1..]);
    }
  }

  /** So every commit is exact on the shared disk, whatever the other sessions have committed since the login: what
      UPDATE moves are the mails as they were then, and nothing but what its marks say changes. */
  lemma SharedCommitIsExact(w: World, envs: Places, j: nat, run: seq<Happening>, e: Event)
    requires Filed(w, envs) && AllTidy(envs) && Settled(w, envs, j) && History(w, envs, run)
    requires var z := Final(w, envs, run);
             Possible(z, Dispatch(j, e)) && Committed(Next(z, envs, Dispatch(j, e)).conns[j])
    ensures var z := Final(w, envs, run);
            var home := HomeOf(w.conns[j].c.user);
            var last := Next(z, envs, Dispatch(j, e));
            var mails := last.conns[j].c.maildir.mails;
            && InPlace(w.files, z.files, home, ListOf(envs(j)))
            && CarriedOut(z.files, last.files, home, mails)
            && (mails != [] ==> SameFiles(ListOf(envs(j)), mails))
  {
    SessionsDoNotDisturb(w, envs, j, run);
    var z := Final(w, envs, run);
    var home := HomeOf(w.conns[j].c.user);
    DispatchFiles(z, envs, j, e);
    var mails := Next(z, envs, Dispatch(j, e)).conns[j].c.maildir.mails;
    if mails == [] {
      CommitCarriesOut(z.files, home, []);
    } else {
      StorableIsCommittable(z.files, home, ListOf(envs(j)), mails);
      CommitCarriesOut(z.files, home, mails);
    }
  }
}
