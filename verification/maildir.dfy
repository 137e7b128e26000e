/** The mail list and the file operations of maildir.c, in place. The lists live in a heap array, the
    files on a disk that all sessions share. */
module Maildirs {
  import opened Maildrops

  /** rename() and remove(), whose results the server ignores. */
  class Disk {
    var files: Files

    constructor (files: Files)
      ensures this.files == files
    {
      this.files := files;
    }

    method RenameFile(from: string, to: string)
      modifies this
      ensures files == Rename(old(files), from, to)
    {
      if from in files {
        var content := files[from];
        files := files - {from};
        files := files[to := content];
      }
    }

    method RemoveFile(path: string)
      modifies this
      ensures files == Remove(old(files), path)
    {
      files := files - {path};
    }
  }

  // ---------- splicing the path ----------

  // `flags` may be S, T or ST.
  predicate IsFlags(flags: string) {
    flags == "S" || flags == "T" || flags == "ST"
  }

  /** memcpy(&path[at], folder, 3) */
  method SetPathFolder(path: array<char>, at: nat, folder: string)
    requires at + |folder| <= path.Length
    modifies path
    ensures path[..] == old(path[..at]) + folder + old(path[at + |folder|..])
  {
    for i := 0 to |folder|
      invariant forall k :: 0 <= k < path.Length ==>
                  path[k] == if at <= k < at + i then folder[k - at] else old(path[k])
    {
      path[at + i] := folder[i];
    }
  }

  /** append_flags: the buffer grown by ":2,<flags>". */
  method AppendFlags(path: array<char>, flags: string) returns (longer: array<char>)
    ensures fresh(longer) && longer[..] == path[..] + ":2," + flags
  {
    var tail := ":2," + flags;
    longer := new char[path.Length + |tail|](i requires 0 <= i < path.Length + |tail| reads path =>
      if i < path.Length then path[i] else tail[i - path.Length]);
    assert longer[..] == path[..] + tail;
    assert path[..] + tail == path[..] + ":2," + flags;
  }

  /** move_and_set_flags: overwrites the "new" of the path by "cur", three bytes before the slash and
      the name, and renames. */
  method MoveAndSetFlags(disk: Disk, dir: string, name: string, flags: string) returns (newPath: string)
    requires IsNewDir(dir) && IsFlags(flags)
    modifies disk
    ensures newPath == Target(dir, name, flags)
    ensures disk.files == Rename(old(disk.files), PathOf(dir, name), newPath)
  {
    var path := PathOf(dir, name);
    var plen, flen := |path|, |name|;
    var buf := new char[plen](i requires 0 <= i < plen => path[i]);
    assert buf[..] == path;
    SetPathFolder(buf, plen - flen - 4, "cur");
    var withFlags := AppendFlags(buf, flags);
    newPath := withFlags[..];
    SpliceIsTarget(dir, name, flags);
    disk.RenameFile(path, newPath);
  }

  lemma SpliceIsTarget(dir: string, name: string, flags: string)
    requires IsNewDir(dir)
    ensures var path := PathOf(dir, name);
            var at := |path| - |name| - 4;
            path[..at] + "cur" + path[at + 3..] + ":2," + flags == Target(dir, name, flags)
  {
    var path := PathOf(dir, name);
    var at := |dir| - 3;
    assert path[..at] == dir[..at];
    assert path[at + 3..] == "/" + name;
    assert "cur" + ("/" + name) == "cur/" + name;
  }

  // ---------- the list ----------

  class Maildir {
    /** NULL until the first command that needs the list. */
    var mails: array?<Mail>
    var ndel: nat

    ghost function Model(): Drop
      reads this, mails
    {
      if mails == null then Drop(false, [], ndel) else Drop(true, mails[..], ndel)
    }

    constructor ()
      ensures Model() == UNLOADED && mails == null
    {
      mails := null;
      ndel := 0;
    }

    /** maildir_list_new: one pass over the directory to count, one to fill. */
    method ListNew(listing: Listing) returns (ok: bool)
      requires mails == null ==> ndel == 0
      modifies this
      ensures ok <==> Load(old(Model()), listing).Some?
      ensures Model() == if ok then Load(old(Model()), listing).value else old(Model())
      ensures mails == old(mails) || (old(mails) == null && fresh(mails))
      ensures ok ==> mails != null
    {
      if mails != null {
        return true;
      }
      match listing
      case Unreadable => ok := false;
      case Entries(entries) =>
        var nfiles := CountEntries(entries);
        var list := new Mail[nfiles](i => Mail(MailFile("", 0, ""), false, false));
        FillEntries(list, entries);
        mails := list;
        ndel := 0;
        ok := true;
    }

    static method CountEntries(entries: seq<MailFile>) returns (nfiles: nat)
      ensures nfiles == |NewMails(entries)|
    {
      nfiles := 0;
      for k := 0 to |entries|
        invariant nfiles == |NewMails(entries[..k])|
      {
        assert entries[..k + 1][..k] == entries[..k];
        if !IsDots(entries[k].name) {
          nfiles := nfiles + 1;
        }
      }
      assert entries[..|entries|] == entries;
    }

    static method FillEntries(list: array<Mail>, entries: seq<MailFile>)
      requires list.Length == |NewMails(entries)|
      modifies list
      ensures list[..] == NewMails(entries)
    {
      var i := 0;
      for k := 0 to |entries|
        invariant i == |NewMails(entries[..k])| && i <= list.Length
        invariant list[..i] == NewMails(entries[..k])
      {
        NewMailsSnoc(entries, k);
        NewMailsGrow(entries, k + 1);
        if !IsDots(entries[k].name) {
          ghost var before := list[..i];
          list[i] := Mail(entries[k], false, false);
          i := i + 1;
          assert list[..i] == before + [Mail(entries[k], false, false)];
        }
      }
      assert entries[..|entries|] == entries;
    }

    /** maildir_set_del */
    method SetDelMark(n: nat, d: bool)
      requires mails != null && n < mails.Length && (mails[n].del && !d ==> ndel > 0)
      modifies this`ndel, mails
      ensures mails == old(mails) && Model() == SetDel(old(Model()), n, d)
    {
      if !mails[n].del && d {
        ndel := ndel + 1;
      } else if mails[n].del && !d {
        ndel := ndel - 1;
      }
      mails[n] := mails[n].(del := d);
    }

    /** maildir_set_read */
    method SetReadMark(n: nat)
      requires mails != null && n < mails.Length
      modifies mails
      ensures mails == old(mails) && Model() == SetRead(old(Model()), n)
    {
      mails[n] := mails[n].(read := true);
    }

    /** The loop of get_new_mails. */
    method Totals() returns (size: nat, delSize: nat)
      requires mails != null
      ensures size == SizeSum(mails[..]) && delSize == DelSize(mails[..])
    {
      size, delSize := 0, 0;
      for i := 0 to mails.Length
        invariant size == SizeSum(mails[..i]) && delSize == DelSize(mails[..i])
      {
        assert mails[..i + 1][..i] == mails[..i];
        size := size + mails[i].file.size;
        if mails[i].del {
          delSize := delSize + mails[i].file.size;
        }
      }
      assert mails[..mails.Length] == mails[..];
    }

    /** The loop of cmd_rset. */
    method ClearAllMarks()
      requires mails != null && DropOk(Model())
      modifies this`ndel, mails
      ensures mails == old(mails) && Model() == ResetAll(old(Model()))
    {
      ghost var was := mails[..];
      for i := 0 to mails.Length
        invariant mails == old(mails) && DropOk(Model())
        invariant forall k :: 0 <= k < i ==> mails[k] == was[k].(del := false)
        invariant forall k :: i <= k < mails.Length ==> mails[k] == was[k]
      {
        SetDelKeeps(Model(), i, false);
        SetDelMark(i, false);
      }
      NoMarksNoCount(mails[..]);
      assert mails[..] == ClearMarks(was);
    }

    /** maildir_del_permanentely */
    method DelPermanently(n: nat, disk: Disk, dir: string)
      requires mails != null && n < mails.Length && IsNewDir(dir) && mails[n].del
      modifies disk
      ensures var p := Target(dir, mails[n].file.name, if mails[n].read then "ST" else "T");
              disk.files == Rename(old(disk.files), PathOf(dir, mails[n].file.name), p) - {p}
      ensures disk.files == ApplyMove(old(disk.files), MoveOf(dir, mails[n]))
    {
      var flags := if mails[n].read then "ST" else "T";
      var np := MoveAndSetFlags(disk, dir, mails[n].file.name, flags);
      disk.RemoveFile(np);
    }

    /** maildir_move_as_read */
    method MoveAsRead(n: nat, disk: Disk, dir: string)
      requires mails != null && n < mails.Length && IsNewDir(dir) && !mails[n].del && mails[n].read
      modifies disk
      ensures var name := mails[n].file.name;
              disk.files == Rename(old(disk.files), PathOf(dir, name), Target(dir, name, "S"))
      ensures disk.files == ApplyMove(old(disk.files), MoveOf(dir, mails[n]))
    {
      var np := MoveAndSetFlags(disk, dir, mails[n].file.name, "S");
    }

    /** The mails' part of handle_request in update.c: the marks are carried out on the disk. */
    method CommitMarks(disk: Disk, dir: string) returns (nRead: nat)
      requires IsNewDir(dir)
      modifies disk
      ensures disk.files == Commit(old(disk.files), dir, Model().mails)
      ensures Storable(old(disk.files), dir, Model().mails) ==>
                CarriedOut(old(disk.files), disk.files, dir, Model().mails)
      ensures nRead == CountRead(Model().mails)
    {
      if Storable(disk.files, dir, Model().mails) {
        CommitCarriesOut(disk.files, dir, Model().mails);
      }
      nRead := CommitLoop(disk, dir);
    }

    // The loop.
    method CommitLoop(disk: Disk, dir: string) returns (nRead: nat)
      requires IsNewDir(dir)
      modifies disk
      ensures disk.files == Commit(old(disk.files), dir, Model().mails)
      ensures nRead == CountRead(Model().mails)
    {
      nRead := 0;
      if mails == null {
        return;
      }
      ghost var v := MovesOf(dir, mails[..]);
      for i := 0 to mails.Length
        invariant disk.files == ApplyMoves(old(disk.files), v[..i])
        invariant nRead == CountRead(mails[..i])
      {
        assert v[..i + 1][..i] == v[..i] && mails[..i + 1][..i] == mails[..i];
        if mails[i].del {
          DelPermanently(i, disk, dir);
        } else if mails[i].read {
          MoveAsRead(i, disk, dir);
          nRead := nRead + 1;
        }
      }
      assert v[..mails.Length] == v && mails[..mails.Length] == mails[..];
    }
  }

  lemma NewMailsSnoc(entries: seq<MailFile>, k: nat)
    requires k < |entries|
    ensures NewMails(entries[..k + 1]) ==
            NewMails(entries[..k]) + (if IsDots(entries[k].name) then [] else [Mail(entries[k], false, false)])
  {
    assert entries[..k + 1][..k] == entries[..k];
  }

  lemma {:induction false} NewMailsGrow(entries: seq<MailFile>, k: nat)
    requires k <= |entries|
    ensures |NewMails(entries[..k])| <= |NewMails(entries)|
    decreases |entries| - k
  {
    if k == |entries| {
      assert entries[..k] == entries;
    } else {
      assert entries[..k + 1][..k] == entries[..k];
      NewMailsGrow(entries, k + 1);
    }
  }
}
