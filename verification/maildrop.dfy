/** The maildrop of one session (maildir.c): the lazily loaded mail list with its deletion count, and
    what committing it does to the files. */
module Maildrops {
  import opened Text

  /** A file in `new/`: its name, its size, and what the configured program prints for it. */
  datatype MailFile = MailFile(name: string, size: nat, output: string)

  datatype Mail = Mail(file: MailFile, read: bool, del: bool)

  /** opendir fails, or readdir yields these entries. */
  datatype Listing = Unreadable | Entries(entries: seq<MailFile>)

  const INT_LIMIT: nat := 0x8000_0000

  /** Sizes and counts print with %d. */
  predicate SmallFiles(entries: seq<MailFile>) {
    |entries| < INT_LIMIT && forall i :: 0 <= i < |entries| ==> entries[i].size < INT_LIMIT
  }

  predicate SmallListing(l: Listing) {
    l.Entries? ==> SmallFiles(l.entries)
  }

  /** `mails == NULL` until the first command that needs the list. */
  datatype Drop = Drop(loaded: bool, mails: seq<Mail>, ndel: nat)

  const UNLOADED := Drop(false, [], 0)

  // ---------- loading ----------

  predicate IsDots(name: string) {
    name == "." || name == ".."
  }

  function NewMails(entries: seq<MailFile>): (r: seq<Mail>)
    ensures |r| <= |entries|
    ensures forall m :: m in r ==> !m.read && !m.del && m.file in entries
  {
    if entries == [] then []
    else
      var last := entries[|entries| - 1];
      NewMails(entries[..|entries| - 1]) + (if IsDots(last.name) then [] else [Mail(last, false, false)])
  }

  function FilesOf(mails: seq<Mail>): seq<MailFile> {
    seq(|mails|, i requires 0 <= i < |mails| => mails[i].file)
  }

  lemma FilesSnoc(mails: seq<Mail>, m: Mail)
    ensures FilesOf(mails + [m]) == FilesOf(mails) + [m.file]
  {
  }

  lemma CountSnoc(files: seq<MailFile>, g: MailFile, f: MailFile)
    ensures multiset(files + [g])[f] == multiset(files)[f] + if g == f then 1 else 0
  {
  }

  /** Of the entries exactly "." and ".." are left out, and no other entry is listed twice or not at all. */
  lemma {:induction false} ListsAllButDots(entries: seq<MailFile>, f: MailFile)
    ensures multiset(FilesOf(NewMails(entries)))[f] ==
            if f.name == "." || f.name == ".." then 0 else multiset(entries)[f]
  {
    if entries != [] {
      var k := |entries| - 1;
      var front, last := NewMails(entries[..k]), entries[k];
      ListsAllButDots(entries[..k], f);
      assert entries == entries[..k] + [last];
      CountSnoc(entries[..k], last, f);
      if IsDots(last.name) {
        assert front + [] == front;
      } else {
        FilesSnoc(front, Mail(last, false, false));
        CountSnoc(FilesOf(front), last, f);
      }
    }
  }

  function Load(drop: Drop, l: Listing): Option<Drop> {
    if drop.loaded then Some(drop)
    else match l
      case Unreadable => None
      case Entries(entries) => Some(Drop(true, NewMails(entries), 0))
  }

  // ---------- marks ----------

  function CountDel(mails: seq<Mail>): (n: nat)
    ensures n <= |mails|
  {
    if mails == [] then 0
    else CountDel(mails[..|mails| - 1]) + (if mails[|mails| - 1].del then 1 else 0)
  }

  function SizeSum(mails: seq<Mail>): nat {
    if mails == [] then 0 else SizeSum(mails[..|mails| - 1]) + mails[|mails| - 1].file.size
  }

  function DelSize(mails: seq<Mail>): (n: nat)
    ensures n <= SizeSum(mails)
  {
    if mails == [] then 0
    else DelSize(mails[..|mails| - 1]) + (if mails[|mails| - 1].del then mails[|mails| - 1].file.size else 0)
  }

  /** The messages a client may still see. */
  function Kept(mails: seq<Mail>): seq<Mail> {
    if mails == [] then []
    else if mails[|mails| - 1].del then Kept(mails[..|mails| - 1])
    else Kept(mails[..|mails| - 1]) + [mails[|mails| - 1]]
  }

  /** maildir_set_del: the count follows the mark only when the mark changes. */
  function SetDel(drop: Drop, n: nat, d: bool): Drop
    requires n < |drop.mails|
    requires drop.mails[n].del && !d ==> drop.ndel > 0
  {
    var m := drop.mails[n];
    var ndel := if !m.del && d then drop.ndel + 1 else if m.del && !d then drop.ndel - 1 else drop.ndel;
    drop.(mails := drop.mails[n := m.(del := d)], ndel := ndel)
  }

  function SetRead(drop: Drop, n: nat): Drop
    requires n < |drop.mails|
  {
    drop.(mails := drop.mails[n := drop.mails[n].(read := true)])
  }

  function ClearMarks(mails: seq<Mail>): (r: seq<Mail>)
    ensures |r| == |mails|
    ensures forall i :: 0 <= i < |mails| ==> r[i] == mails[i].(del := false)
  {
    seq(|mails|, i requires 0 <= i < |mails| => mails[i].(del := false))
  }

  function ResetAll(drop: Drop): Drop {
    drop.(mails := ClearMarks(drop.mails), ndel := 0)
  }

  /** The cached count is the number of marks, and everything printed stays a small number. */
  ghost predicate DropOk(drop: Drop) {
    && drop.ndel == CountDel(drop.mails)
    && (!drop.loaded ==> drop.mails == [])
    && |drop.mails| < INT_LIMIT
    && forall i :: 0 <= i < |drop.mails| ==> drop.mails[i].file.size < INT_LIMIT
  }

  lemma {:induction false} CountDelUpdate(mails: seq<Mail>, n: nat, m: Mail)
    requires n < |mails|
    ensures CountDel(mails[n := m]) ==
            CountDel(mails) + (if m.del then 1 else 0) - (if mails[n].del then 1 else 0)
  {
    var k := |mails| - 1;
    if n == k {
      assert mails[n := m][..k] == mails[..k];
    } else {
      assert mails[n := m][..k] == mails[..k][n := m];
      CountDelUpdate(mails[..k], n, m);
    }
  }

  lemma {:induction false} NoMarksNoCount(mails: seq<Mail>)
    requires forall i :: 0 <= i < |mails| ==> !mails[i].del
    ensures CountDel(mails) == 0
  {
    if mails != [] {
      NoMarksNoCount(mails[..|mails| - 1]);
    }
  }

  lemma LoadKeeps(drop: Drop, l: Listing)
    requires DropOk(drop) && SmallListing(l) && Load(drop, l).Some?
    ensures DropOk(Load(drop, l).value) && Load(drop, l).value.loaded
    ensures drop.loaded ==> Load(drop, l).value == drop
  {
    if !drop.loaded {
      var mails := NewMails(l.entries);
      forall i | 0 <= i < |mails| ensures !mails[i].del && mails[i].file.size < INT_LIMIT {
        assert mails[i] in mails;
      }
      NoMarksNoCount(mails);
    }
  }

  lemma SetDelKeeps(drop: Drop, n: nat, d: bool)
    requires DropOk(drop) && n < |drop.mails|
    ensures drop.mails[n].del ==> drop.ndel > 0
    ensures DropOk(SetDel(drop, n, d))
  {
    CountDelUpdate(drop.mails, n, drop.mails[n].(del := false));
    CountDelUpdate(drop.mails, n, drop.mails[n].(del := d));
  }

  lemma SetReadKeeps(drop: Drop, n: nat)
    requires DropOk(drop) && n < |drop.mails|
    ensures DropOk(SetRead(drop, n))
  {
    CountDelUpdate(drop.mails, n, drop.mails[n].(read := true));
  }

  lemma ResetKeeps(drop: Drop)
    requires DropOk(drop)
    ensures DropOk(ResetAll(drop))
  {
    NoMarksNoCount(ClearMarks(drop.mails));
  }

  lemma SizeSumSnoc(mails: seq<Mail>, m: Mail)
    ensures SizeSum(mails + [m]) == SizeSum(mails) + m.file.size
  {
    assert (mails + [m])[..|mails|] == mails;
  }

  /** STAT's two numbers, computed from the cached count and two sums, describe the kept messages. */
  lemma {:induction false} KeptTotals(mails: seq<Mail>)
    ensures |mails| - CountDel(mails) == |Kept(mails)|
    ensures SizeSum(mails) - DelSize(mails) == SizeSum(Kept(mails))
  {
    if mails != [] {
      var k := |mails| - 1;
      KeptTotals(mails[..k]);
      SizeSumSnoc(Kept(mails[..k]), mails[k]);
    }
  }

  lemma {:induction false} SizeSumBound(mails: seq<Mail>)
    requires forall i :: 0 <= i < |mails| ==> mails[i].file.size < INT_LIMIT
    ensures SizeSum(mails) <= |mails| * INT_LIMIT
  {
    if mails != [] {
      SizeSumBound(mails[..|mails| - 1]);
    }
  }

  lemma {:induction false} NothingMarked(mails: seq<Mail>)
    requires forall i :: 0 <= i < |mails| ==> !mails[i].del
    ensures Kept(mails) == mails
  {
    if mails != [] {
      NothingMarked(mails[..|mails| - 1]);
      assert mails == mails[..|mails| - 1] + [mails[|mails| - 1]];
    }
  }

  ghost predicate SameFiles(a: seq<Mail>, b: seq<Mail>) {
    |a| == |b| && forall i :: 0 <= i < |a| ==> a[i].file == b[i].file
  }

  // ---------- UPDATE: committing the marks to the files ----------

  type Files = map<string, string>

  /** `dir` is the path of `new/` without the final slash. */
  function PathOf(dir: string, name: string): string {
    dir + "/" + name
  }

  predicate IsNewDir(dir: string) {
    |dir| >= 3 && dir[|dir| - 3..] == "new"
  }

  /** `cur/<name>:2,<flags>` beside `new/`. */
  function Target(dir: string, name: string, flags: string): string
    requires |dir| >= 3
  {
    dir[..|dir| - 3] + "cur/" + name + ":2," + flags
  }

  function Rename(fs: Files, from: string, to: string): Files {
    if from in fs then (fs - {from})[to := fs[from]] else fs
  }

  function Remove(fs: Files, path: string): Files {
    fs - {path}
  }

  function FlagsOf(m: Mail): string {
    if m.del then (if m.read then "ST" else "T") else "S"
  }

  /** One mail's turn in the UPDATE loop: flagged as trashed and removed, or filed as seen, or left. */
  datatype Move = Move(from: string, to: string, del: bool, read: bool)

  function MoveOf(dir: string, m: Mail): Move
    requires |dir| >= 3
  {
    Move(PathOf(dir, m.file.name), Target(dir, m.file.name, FlagsOf(m)), m.del, m.read)
  }

  function MovesOf(dir: string, mails: seq<Mail>): (r: seq<Move>)
    requires |dir| >= 3
    ensures |r| == |mails| && forall i :: 0 <= i < |mails| ==> r[i] == MoveOf(dir, mails[i])
  {
    seq(|mails|, i requires 0 <= i < |mails| => MoveOf(dir, mails[i]))
  }

  function ApplyMove(fs: Files, v: Move): Files {
    if v.del then Remove(Rename(fs, v.from, v.to), v.to)
    else if v.read then Rename(fs, v.from, v.to)
    else fs
  }

  function ApplyMoves(fs: Files, moves: seq<Move>): Files {
    if moves == [] then fs
    else ApplyMove(ApplyMoves(fs, moves[..|moves| - 1]), moves[|moves| - 1])
  }

  function Commit(fs: Files, dir: string, mails: seq<Mail>): Files
    requires IsNewDir(dir)
  {
    ApplyMoves(fs, MovesOf(dir, mails))
  }

  /** Names are distinct entries of `new/`, and no rename target is taken. */
  ghost predicate Committable(fs: Files, dir: string, mails: seq<Mail>) {
    && IsNewDir(dir)
    && (forall i, j :: 0 <= i < j < |mails| ==> mails[i].file.name != mails[j].file.name)
    && (forall i :: 0 <= i < |mails| ==> PathOf(dir, mails[i].file.name) in fs)
    && (forall i :: 0 <= i < |mails| ==> Target(dir, mails[i].file.name, FlagsOf(mails[i])) !in fs)
  }

  lemma PathsDistinct(dir: string, a: string, b: string)
    requires PathOf(dir, a) == PathOf(dir, b)
    ensures a == b
  {
    assert a == PathOf(dir, a)[|dir| + 1..];
    assert b == PathOf(dir, b)[|dir| + 1..];
  }

  /** Targets tell both the name and the flags apart: no two mails are renamed onto each other. */
  lemma TargetsDistinct(dir: string, a: string, b: string, f: string, g: string)
    requires |dir| >= 3 && f in ["S", "T", "ST"] && g in ["S", "T", "ST"]
    requires Target(dir, a, f) == Target(dir, b, g)
    ensures a == b && f == g
  {
    var pre := dir[..|dir| - 3] + "cur/";
    var x, y := a + ":2," + f, b + ":2," + g;
    assert Target(dir, a, f) == pre + x && Target(dir, b, g) == pre + y;
    assert x == (pre + x)[|pre|..] && y == (pre + y)[|pre|..];
    assert x == y;
    assert x[|x| - 1] == f[|f| - 1] && y[|y| - 1] == g[|g| - 1];
    assert x[|x| - 2] == (if |f| == 1 then ',' else 'S') && y[|y| - 2] == (if |g| == 1 then ',' else 'S');
    assert |f| == |g|;
    assert x[..|a|] == a && y[..|b|] == b;
  }

  ghost predicate Separate(fs: Files, v: seq<Move>) {
    && (forall i, j :: 0 <= i < j < |v| ==> v[i].from != v[j].from && v[i].to != v[j].to)
    && (forall i :: 0 <= i < |v| ==> v[i].from in fs && v[i].to !in fs)
  }

  // What the first `k` moves left behind.
  ghost predicate DeletedAreGone(after: Files, v: seq<Move>, k: nat)
    requires k <= |v|
  {
    forall i :: 0 <= i < k && v[i].del ==> v[i].from !in after && v[i].to !in after
  }

  ghost predicate ReadAreFiled(fs: Files, after: Files, v: seq<Move>, k: nat)
    requires k <= |v|
  {
    forall i :: 0 <= i < k && !v[i].del && v[i].read ==>
      v[i].from in fs && v[i].from !in after && v[i].to in after && after[v[i].to] == fs[v[i].from]
  }

  ghost predicate MovesAway(v: seq<Move>, k: nat, p: string)
    requires k <= |v|
  {
    exists i :: 0 <= i < k && v[i].from == p && (v[i].del || v[i].read)
  }

  ghost predicate FiledAt(v: seq<Move>, k: nat, p: string)
    requires k <= |v|
  {
    exists i :: 0 <= i < k && v[i].to == p && !v[i].del && v[i].read
  }

  ghost predicate OthersUntouched(fs: Files, after: Files, v: seq<Move>, k: nat)
    requires k <= |v|
  {
    forall p :: p in fs && !MovesAway(v, k, p) ==> p in after && after[p] == fs[p]
  }

  ghost predicate NothingElse(fs: Files, after: Files, v: seq<Move>, k: nat)
    requires k <= |v|
  {
    forall p :: p in after && p !in fs ==> FiledAt(v, k, p)
  }

  /** The whole file map after the moves: deleted mails are gone under both names, read and undeleted
      ones have their bytes under the new name only, every other file is untouched, and no file
      appears elsewhere. */
  ghost predicate Moved(fs: Files, after: Files, v: seq<Move>, k: nat)
    requires k <= |v|
  {
    && DeletedAreGone(after, v, k)
    && ReadAreFiled(fs, after, v, k)
    && OthersUntouched(fs, after, v, k)
    && NothingElse(fs, after, v, k)
  }

  lemma NextIsInPlace(fs: Files, after: Files, v: seq<Move>, k: nat)
    requires Separate(fs, v) && k < |v| && Moved(fs, after, v, k)
    ensures v[k].from in after && after[v[k].from] == fs[v[k].from]
    ensures v[k].to !in after
  {
    if MovesAway(v, k, v[k].from) {
      var i :| 0 <= i < k && v[i].from == v[k].from && (v[i].del || v[i].read);
    }
  }

  // One move changes the file map at its two paths only.
  ghost predicate ChangedAt(before: Files, next: Files, w: Move)
    requires w.from in before
  {
    && (forall p :: p != w.from && p != w.to ==> (p in next <==> p in before))
    && (forall p :: p != w.from && p != w.to && p in before ==> p in next && next[p] == before[p])
    && (w.from in next <==> !w.del && !w.read)
    && (w.to in next <==> !w.del && w.read)
    && (w.to in next ==> next[w.to] == before[w.from])
    && (w.from in next ==> next[w.from] == before[w.from])
  }

  lemma MoveAt(fs: Files, w: Move)
    requires w.from in fs && w.to !in fs
    ensures ChangedAt(fs, ApplyMove(fs, w), w)
  {
  }

  lemma StepOnRow(fs: Files, after: Files, next: Files, v: seq<Move>, k: nat, i: nat)
    requires Separate(fs, v) && i <= k < |v|
    requires DeletedAreGone(after, v, k) && ReadAreFiled(fs, after, v, k)
    requires v[k].from in after && after[v[k].from] == fs[v[k].from] && ChangedAt(after, next, v[k])
    ensures v[i].del ==> v[i].from !in next && v[i].to !in next
    ensures !v[i].del && v[i].read ==>
              v[i].from in fs && v[i].from !in next && v[i].to in next && next[v[i].to] == fs[v[i].from]
  {
    if i < k {
      assert v[i].from != v[k].from && v[i].to != v[k].to;
      assert v[i].from in fs && v[i].to !in fs && v[k].from in fs && v[k].to !in fs;
    }
  }

  lemma StepOnFiles(fs: Files, after: Files, next: Files, v: seq<Move>, k: nat)
    requires Separate(fs, v) && k < |v|
    requires OthersUntouched(fs, after, v, k) && NothingElse(fs, after, v, k)
    requires v[k].from in after && after[v[k].from] == fs[v[k].from] && ChangedAt(after, next, v[k])
    ensures OthersUntouched(fs, next, v, k + 1) && NothingElse(fs, next, v, k + 1)
  {
    forall p | p in next && p !in fs
      ensures FiledAt(v, k + 1, p)
    {
      if p in after {
        assert FiledAt(v, k, p);
      }
    }
    forall p | p in fs && !MovesAway(v, k + 1, p)
      ensures p in next && next[p] == fs[p]
    {
      assert !MovesAway(v, k, p);
      assert p == v[k].from ==> !v[k].del && !v[k].read;
    }
  }

  lemma MoveStep(fs: Files, after: Files, v: seq<Move>, k: nat)
    requires Separate(fs, v) && k < |v| && Moved(fs, after, v, k)
    ensures Moved(fs, ApplyMove(after, v[k]), v, k + 1)
  {
    NextIsInPlace(fs, after, v, k);
    MoveAt(after, v[k]);
    var next := ApplyMove(after, v[k]);
    forall i | 0 <= i < k + 1
      ensures v[i].del ==> v[i].from !in next && v[i].to !in next
      ensures !v[i].del && v[i].read ==>
                v[i].from in fs && v[i].from !in next && v[i].to in next && next[v[i].to] == fs[v[i].from]
    {
      StepOnRow(fs, after, next, v, k, i);
    }
    StepOnFiles(fs, after, next, v, k);
  }

  lemma {:induction false} MovesReach(fs: Files, v: seq<Move>, k: nat)
    requires Separate(fs, v) && k <= |v|
    ensures Moved(fs, ApplyMoves(fs, v[..k]), v, k)
  {
    if k > 0 {
      MovesReach(fs, v, k - 1);
      assert v[..k][..k - 1] == v[..k - 1];
      MoveStep(fs, ApplyMoves(fs, v[..k - 1]), v, k - 1);
    }
  }

  lemma CommittableIsSeparate(fs: Files, dir: string, mails: seq<Mail>)
    requires Committable(fs, dir, mails)
    ensures Separate(fs, MovesOf(dir, mails))
  {
    forall i, j | 0 <= i < j < |mails|
      ensures MoveOf(dir, mails[i]).from != MoveOf(dir, mails[j]).from
      ensures MoveOf(dir, mails[i]).to != MoveOf(dir, mails[j]).to
    {
      if MoveOf(dir, mails[i]).from == MoveOf(dir, mails[j]).from {
        PathsDistinct(dir, mails[i].file.name, mails[j].file.name);
      }
      if MoveOf(dir, mails[i]).to == MoveOf(dir, mails[j]).to {
        TargetsDistinct(dir, mails[i].file.name, mails[j].file.name, FlagsOf(mails[i]), FlagsOf(mails[j]));
      }
    }
  }

  /** UPDATE does to the files exactly what the marks say. */
  lemma CommitIsExact(fs: Files, dir: string, mails: seq<Mail>)
    requires Committable(fs, dir, mails)
    ensures Moved(fs, Commit(fs, dir, mails), MovesOf(dir, mails), |mails|)
  {
    CommittableIsSeparate(fs, dir, mails);
    var v := MovesOf(dir, mails);
    MovesReach(fs, v, |v|);
    assert v[..|v|] == v;
  }

  /** What UPDATE finds: distinct names, all there, and no rename target taken under any flags. */
  ghost predicate Storable(fs: Files, dir: string, mails: seq<Mail>) {
    && IsNewDir(dir)
    && (forall i, j :: 0 <= i < j < |mails| ==> mails[i].file.name != mails[j].file.name)
    && (forall i :: 0 <= i < |mails| ==> PathOf(dir, mails[i].file.name) in fs)
    && (forall i :: 0 <= i < |mails| ==>
          && Target(dir, mails[i].file.name, "S") !in fs
          && Target(dir, mails[i].file.name, "T") !in fs
          && Target(dir, mails[i].file.name, "ST") !in fs)
  }

  /** What its marks ask for one mail: deleted, it is gone under every name; read, it is at cur/<name>:2,S with its
      bytes and nowhere else; unmarked, it is where it was. */
  ghost predicate GoneWhereMarked(fs: Files, after: Files, dir: string, m: Mail)
    requires IsNewDir(dir)
  {
    var p := PathOf(dir, m.file.name);
    var s, t, st := Target(dir, m.file.name, "S"), Target(dir, m.file.name, "T"), Target(dir, m.file.name, "ST");
    && t !in after && st !in after && p in fs
    && (m.del ==> p !in after && s !in after)
    && (!m.del && m.read ==> p !in after && s in after && after[s] == fs[p])
    && (!m.del && !m.read ==> s !in after && p in after && after[p] == fs[p])
  }

  // A path of one of the mails, old or new.
  ghost predicate Concerns(dir: string, mails: seq<Mail>, p: string)
    requires IsNewDir(dir)
  {
    exists i :: 0 <= i < |mails| &&
      (p == PathOf(dir, mails[i].file.name) || p == Target(dir, mails[i].file.name, "S") ||
       p == Target(dir, mails[i].file.name, "T") || p == Target(dir, mails[i].file.name, "ST"))
  }

  /** The marks are carried out: every mail has gone where its own marks say, and no other file is touched. */
  ghost predicate CarriedOut(fs: Files, after: Files, dir: string, mails: seq<Mail>)
    requires IsNewDir(dir)
  {
    && (forall i :: 0 <= i < |mails| ==> GoneWhereMarked(fs, after, dir, mails[i]))
    && (forall p :: !Concerns(dir, mails, p) ==> (p in after <==> p in fs) && (p in fs ==> after[p] == fs[p]))
  }

  lemma StorableIsCommittable(fs: Files, dir: string, before: seq<Mail>, after: seq<Mail>)
    requires Storable(fs, dir, before) && SameFiles(before, after)
    ensures Storable(fs, dir, after) && Committable(fs, dir, after)
  {
    forall i | 0 <= i < |after|
      ensures PathOf(dir, after[i].file.name) in fs && Target(dir, after[i].file.name, FlagsOf(after[i])) !in fs
      ensures Target(dir, after[i].file.name, "S") !in fs && Target(dir, after[i].file.name, "T") !in fs
      ensures Target(dir, after[i].file.name, "ST") !in fs
    {
      assert after[i].file == before[i].file;
    }
  }

  // A path that is new is where a read mail is filed.
  lemma NewIsFiled(fs: Files, dir: string, mails: seq<Mail>, p: string) returns (j: nat)
    requires Committable(fs, dir, mails) && p !in fs && p in Commit(fs, dir, mails)
    ensures j < |mails| && !mails[j].del && mails[j].read && p == Target(dir, mails[j].file.name, "S")
  {
    CommitIsExact(fs, dir, mails);
    var v := MovesOf(dir, mails);
    assert FiledAt(v, |v|, p);
    j :| 0 <= j < |v| && v[j].to == p && !v[j].del && v[j].read;
    assert v[j] == MoveOf(dir, mails[j]);
  }

  // A target is new only if it is the one a read mail is filed at.
  lemma TargetIsNew(fs: Files, dir: string, mails: seq<Mail>, i: nat, flags: string)
    requires Storable(fs, dir, mails) && i < |mails| && flags in ["S", "T", "ST"]
    requires Target(dir, mails[i].file.name, flags) in Commit(fs, dir, mails)
    ensures flags == "S" && !mails[i].del && mails[i].read
  {
    StorableIsCommittable(fs, dir, mails, mails);
    var j := NewIsFiled(fs, dir, mails, Target(dir, mails[i].file.name, flags));
    TargetsDistinct(dir, mails[j].file.name, mails[i].file.name, "S", flags);
  }

  lemma MailGoesWhereMarked(fs: Files, dir: string, mails: seq<Mail>, i: nat)
    requires Storable(fs, dir, mails) && i < |mails|
    ensures GoneWhereMarked(fs, Commit(fs, dir, mails), dir, mails[i])
  {
    StorableIsCommittable(fs, dir, mails, mails);
    CommitIsExact(fs, dir, mails);
    NewKeepsUnmarked(fs, dir, mails, i);
    if !mails[i].del && !mails[i].read { UnmarkedStays(fs, dir, mails, i); }
    var after := Commit(fs, dir, mails);
    var v := MovesOf(dir, mails);
    assert v[i] == MoveOf(dir, mails[i]);
    if Target(dir, mails[i].file.name, "S") in after { TargetIsNew(fs, dir, mails, i, "S"); }
    if Target(dir, mails[i].file.name, "T") in after { TargetIsNew(fs, dir, mails, i, "T"); }
    if Target(dir, mails[i].file.name, "ST") in after { TargetIsNew(fs, dir, mails, i, "ST"); }
  }

  // Only its own move takes a mail away.
  lemma OwnMoveOnly(fs: Files, v: seq<Move>, i: nat)
    requires Separate(fs, v) && i < |v| && !v[i].del && !v[i].read
    ensures !MovesAway(v, |v|, v[i].from)
  {
    forall j | 0 <= j < |v| && v[j].from == v[i].from ensures j == i {
    }
  }

  lemma UnmarkedStays(fs: Files, dir: string, mails: seq<Mail>, i: nat)
    requires Committable(fs, dir, mails) && i < |mails| && !mails[i].del && !mails[i].read
    ensures var p := PathOf(dir, mails[i].file.name);
            p in fs && p in Commit(fs, dir, mails) && Commit(fs, dir, mails)[p] == fs[p]
  {
    CommitIsExact(fs, dir, mails);
    CommittableIsSeparate(fs, dir, mails);
    var v := MovesOf(dir, mails);
    assert v[i].from == PathOf(dir, mails[i].file.name);
    OwnMoveOnly(fs, v, i);
  }

  lemma MovesConcern(dir: string, mails: seq<Mail>, p: string)
    requires IsNewDir(dir) && !Concerns(dir, mails, p)
    ensures forall j :: 0 <= j < |mails| ==> MovesOf(dir, mails)[j].from != p && MovesOf(dir, mails)[j].to != p
  {
    forall j | 0 <= j < |mails|
      ensures MovesOf(dir, mails)[j].from != p && MovesOf(dir, mails)[j].to != p
    {
      var name := mails[j].file.name;
      assert p != PathOf(dir, name) && p != Target(dir, name, "S");
      assert p != Target(dir, name, "T") && p != Target(dir, name, "ST");
    }
  }

  lemma OtherFileStays(fs: Files, dir: string, mails: seq<Mail>, p: string)
    requires Storable(fs, dir, mails) && !Concerns(dir, mails, p)
    ensures var after := Commit(fs, dir, mails); (p in after <==> p in fs) && (p in fs ==> after[p] == fs[p])
  {
    StorableIsCommittable(fs, dir, mails, mails);
    CommitIsExact(fs, dir, mails);
    MovesConcern(dir, mails, p);
  }

  /** UPDATE carries out the marks. */
  lemma CommitCarriesOut(fs: Files, dir: string, mails: seq<Mail>)
    requires Storable(fs, dir, mails)
    ensures CarriedOut(fs, Commit(fs, dir, mails), dir, mails)
  {
    forall i | 0 <= i < |mails| ensures GoneWhereMarked(fs, Commit(fs, dir, mails), dir, mails[i]) {
      MailGoesWhereMarked(fs, dir, mails, i);
    }
    forall p | !Concerns(dir, mails, p)
      ensures var after := Commit(fs, dir, mails); (p in after <==> p in fs) && (p in fs ==> after[p] == fs[p])
    {
      OtherFileStays(fs, dir, mails, p);
    }
  }

  /** The two kinds of paths, spelled out. */
  lemma PathsAreSpelled(base: string, name: string)
    ensures PathOf(base + "new", name) == base + "new/" + name
    ensures Target(base + "new", name, "S") == base + "cur/" + name + ":2,S"
    ensures Target(base + "new", name, "T") == base + "cur/" + name + ":2,T"
    ensures Target(base + "new", name, "ST") == base + "cur/" + name + ":2,ST"
  {
    assert (base + "new")[..|base|] == base;
    assert base + "new" + "/" == base + "new/";
    Spelled(base + "cur/" + name, "S");
    Spelled(base + "cur/" + name, "T");
    Spelled(base + "cur/" + name, "ST");
    assert ":2," + "S" == ":2,S" && ":2," + "T" == ":2,T" && ":2," + "ST" == ":2,ST";
  }

  lemma Spelled(front: string, flags: string)
    ensures front + ":2," + flags == front + (":2," + flags)
  {
  }

  /** In particular `new/` keeps exactly the unread undeleted mails. */
  lemma NewKeepsUnmarked(fs: Files, dir: string, mails: seq<Mail>, i: nat)
    requires Committable(fs, dir, mails) && i < |mails|
    ensures PathOf(dir, mails[i].file.name) in Commit(fs, dir, mails) <==> !mails[i].del && !mails[i].read
  {
    CommitIsExact(fs, dir, mails);
    CommittableIsSeparate(fs, dir, mails);
    var v := MovesOf(dir, mails);
    assert v[i].from == PathOf(dir, mails[i].file.name);
    if MovesAway(v, |v|, v[i].from) {
      var j :| 0 <= j < |v| && v[j].from == v[i].from && (v[j].del || v[j].read);
      assert j == i;
    }
  }

  // ---------- the numbers UPDATE reports ----------

  function CountRead(mails: seq<Mail>): (n: nat)
    ensures n <= |mails|
  {
    if mails == [] then 0
    else CountRead(mails[..|mails| - 1]) + (if !mails[|mails| - 1].del && mails[|mails| - 1].read then 1 else 0)
  }

  function CountUnmarked(mails: seq<Mail>): nat {
    if mails == [] then 0
    else CountUnmarked(mails[..|mails| - 1]) + (if !mails[|mails| - 1].del && !mails[|mails| - 1].read then 1 else 0)
  }

  /** `len - ndel - n_read` never underflows and is the number of mails left in `new/`. */
  lemma {:induction false} LeftInNew(mails: seq<Mail>)
    ensures |mails| - CountDel(mails) - CountRead(mails) == CountUnmarked(mails)
  {
    if mails != [] {
      LeftInNew(mails[..|mails| - 1]);
    }
  }
}
