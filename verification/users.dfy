/** The fixed table of users (user.c): linear scans over slots, a slot without a name being free, and
    the finite map the table stands for. */
module Users {
  import opened Text

  const MAX_USERS: nat := 510

  datatype UserState = Offline | Logging | Online | NotFound

  datatype Slot = Slot(name: string, pass: string, state: UserState)

  const FREE_SLOT := Slot("", "", Offline)

  type Slots = seq<Slot>

  /** The scan every function performs: the first slot with this name, or the number of slots. */
  function Find(slots: Slots, name: string): (i: nat)
    ensures i <= |slots|
    ensures forall j :: 0 <= j < i ==> slots[j].name != name
    ensures i < |slots| ==> slots[i].name == name
  {
    if slots == [] || slots[0].name == name then 0 else 1 + Find(slots[1..], name)
  }

  predicate Exists(slots: Slots, name: string) {
    Find(slots, name) < |slots|
  }

  function GetState(slots: Slots, name: string): UserState {
    var i := Find(slots, name);
    if i < |slots| then slots[i].state else NotFound
  }

  /** user_set_state has no break: it writes every slot with the name. */
  function SetState(slots: Slots, name: string, st: UserState): (r: Slots)
    ensures |r| == |slots|
    ensures forall i :: 0 <= i < |slots| ==>
              r[i] == if st != NotFound && slots[i].name == name then slots[i].(state := st) else slots[i]
  {
    seq(|slots|, i requires 0 <= i < |slots| =>
      if st != NotFound && slots[i].name == name then slots[i].(state := st) else slots[i])
  }

  predicate CheckPass(slots: Slots, name: string, pass: string) {
    var i := Find(slots, name);
    i < |slots| && slots[i].pass == pass
  }

  datatype Table = Table(slots: Slots, total: int)

  /** user_add stops at the first slot that is free or has the name, whichever comes first. */
  function Add(t: Table, name: string, pass: string): (Table, int) {
    var free, same := Find(t.slots, ""), Find(t.slots, name);
    if t.total == MAX_USERS then (t, -1)
    else if free < |t.slots| && free <= same then
      (Table(t.slots[free := Slot(name, pass, Offline)], t.total + 1), 0)
    else if same < |t.slots| then (t, -2)
    else (t, -1)
  }

  function Delete(t: Table, name: string): (Table, int) {
    var i := Find(t.slots, name);
    if i == |t.slots| then (t, -1)
    else if t.slots[i].state != Offline then (t, -2)
    else (Table(t.slots[i := FREE_SLOT], t.total - 1), 0)
  }

  // ---------- the object ----------

  class UserTable {
    const users: array<Slot>
    var total: int

    ghost function Model(): Table
      reads this, users
    {
      Table(users[..], total)
    }

    constructor ()
      ensures Model() == Table(seq(MAX_USERS, i => FREE_SLOT), 0) && fresh(users)
    {
      users := new Slot[MAX_USERS](i => FREE_SLOT);
      total := 0;
      new;
      assert users[..] == seq(MAX_USERS, i => FREE_SLOT);
    }

    // The loop shared by the scans.
    method Scan(name: string) returns (i: nat)
      ensures i == Find(users[..], name)
    {
      i := 0;
      while i < users.Length && users[i].name != name
        invariant 0 <= i <= users.Length
        invariant forall j :: 0 <= j < i ==> users[j].name != name
      {
        i := i + 1;
      }
      FirstIsFind(users[..], name, i);
    }

    method UserGetState(name: string) returns (st: UserState)
      ensures st == GetState(users[..], name)
    {
      var i := Scan(name);
      st := if i < users.Length then users[i].state else NotFound;
    }

    method UserExists(name: string) returns (found: bool)
      ensures found == Exists(users[..], name)
    {
      var i := Scan(name);
      found := i < users.Length;
    }

    method UserCheckPass(name: string, pass: string) returns (ok: bool)
      ensures ok == CheckPass(users[..], name, pass)
      ensures ok <==> exists i :: 0 <= i < users.Length && users[i].name == name && users[i].pass == pass &&
                                  forall j :: 0 <= j < i ==> users[j].name != name
    {
      var i := Scan(name);
      ok := i < users.Length && users[i].pass == pass;
    }

    method UserSetState(name: string, st: UserState)
      modifies users
      ensures users[..] == SetState(old(users[..]), name, st)
    {
      if st == NotFound {
        return;
      }
      var i := 0;
      while i < users.Length
        invariant 0 <= i <= users.Length
        invariant forall j :: 0 <= j < i ==> users[j] == SetState(old(users[..]), name, st)[j]
        invariant forall j :: i <= j < users.Length ==> users[j] == old(users[j])
      {
        if users[i].name == name {
          users[i] := users[i].(state := st);
        }
        i := i + 1;
      }
    }

    method UserAdd(name: string, pass: string) returns (code: int)
      modifies this, users
      ensures (Model(), code) == Add(old(Model()), name, pass)
    {
      if total == MAX_USERS {
        return -1;
      }
      var i := 0;
      while i < users.Length
        invariant 0 <= i <= users.Length
        invariant Model() == old(Model())
        invariant forall j :: 0 <= j < i ==> users[j].name != "" && users[j].name != name
      {
        if users[i].name == "" {
          FirstIsFind(users[..], "", i);
          users[i] := Slot(name, pass, Offline);
          total := total + 1;
          return 0;
        } else if users[i].name == name {
          FirstIsFind(users[..], name, i);
          return -2;
        }
        i := i + 1;
      }
      code := -1;
    }

    method UserDelete(name: string) returns (code: int)
      modifies this, users
      ensures (Model(), code) == Delete(old(Model()), name)
    {
      var i := Scan(name);
      if i == users.Length {
        code := -1;
      } else if users[i].state != Offline {
        code := -2;
      } else {
        users[i] := FREE_SLOT;
        total := total - 1;
        code := 0;
      }
    }
  }

  lemma FirstIsFind(slots: Slots, name: string, i: nat)
    requires i <= |slots| && (i < |slots| ==> slots[i].name == name)
    requires forall j :: 0 <= j < i ==> slots[j].name != name
    ensures Find(slots, name) == i
  {
  }

  // ---------- the table is a finite map ----------

  datatype Account = Account(pass: string, state: UserState)

  function Named(slots: Slots): nat {
    if slots == [] then 0
    else Named(slots[..|slots| - 1]) + (if slots[|slots| - 1].name == "" then 0 else 1)
  }

  /** Names are unique, and `total_users` counts them. */
  ghost predicate Valid(t: Table) {
    && |t.slots| == MAX_USERS
    && t.total == Named(t.slots)
    && forall i, j :: 0 <= i < j < |t.slots| && t.slots[i].name == t.slots[j].name ==> t.slots[i].name == ""
  }

  /** The map the table stands for, at a non-empty name. */
  function Lookup(slots: Slots, name: string): Option<Account> {
    var i := Find(slots, name);
    if i < |slots| then Some(Account(slots[i].pass, slots[i].state)) else None
  }

  /** `after` is `before` with `name` bound to `value`. */
  ghost predicate Updated(before: Slots, after: Slots, name: string, value: Option<Account>) {
    forall n :: n != "" ==> Lookup(after, n) == if n == name then value else Lookup(before, n)
  }

  lemma {:induction false} NamedUpdate(slots: Slots, i: nat, s: Slot)
    requires i < |slots|
    ensures Named(slots[i := s]) ==
            Named(slots) + (if s.name == "" then 0 else 1) - (if slots[i].name == "" then 0 else 1)
  {
    var k := |slots| - 1;
    if i == k {
      assert slots[i := s][..k] == slots[..k];
    } else {
      assert slots[i := s][..k] == slots[..k][i := s];
      NamedUpdate(slots[..k], i, s);
    }
  }

  /** The table is full exactly when no slot is free. */
  lemma {:induction false} FullMeansNoFree(slots: Slots)
    ensures Named(slots) <= |slots|
    ensures Named(slots) == |slots| <==> forall i :: 0 <= i < |slots| ==> slots[i].name != ""
  {
    if slots != [] {
      var k := |slots| - 1;
      FullMeansNoFree(slots[..k]);
      assert forall i :: 0 <= i < k ==> slots[..k][i] == slots[i];
      if forall i :: 0 <= i < k ==> slots[i].name != "" {
        assert forall i :: 0 <= i < k ==> slots[..k][i].name != "";
      }
    }
  }

  lemma FindUnique(t: Table, i: nat)
    requires Valid(t) && i < |t.slots| && t.slots[i].name != ""
    ensures Find(t.slots, t.slots[i].name) == i
  {
  }

  lemma {:induction false} SameNamesSameCount(a: Slots, b: Slots)
    requires |a| == |b| && forall i :: 0 <= i < |a| ==> a[i].name == b[i].name
    ensures Named(a) == Named(b)
  {
    if a != [] {
      SameNamesSameCount(a[..|a| - 1], b[..|b| - 1]);
    }
  }

  lemma SetStateIsUpdate(t: Table, name: string, st: UserState)
    requires Valid(t) && name != "" && st != NotFound && Lookup(t.slots, name).Some?
    ensures Valid(t.(slots := SetState(t.slots, name, st)))
    ensures Updated(t.slots, SetState(t.slots, name, st), name, Some(Lookup(t.slots, name).value.(state := st)))
  {
    var r := SetState(t.slots, name, st);
    SameNamesSameCount(t.slots, r);
    forall n | n != ""
      ensures Lookup(r, n) == if n == name then Some(Lookup(t.slots, name).value.(state := st)) else Lookup(t.slots, n)
    {
      FirstIsFind(r, n, Find(t.slots, n));
    }
  }

  // Two tables that differ in one slot, free in the first and named in the second.
  ghost predicate DifferAt(t: Table, u: Table, i: nat) {
    && Valid(t) && Valid(u) && i < MAX_USERS
    && t.slots[i].name == "" && u.slots[i].name != ""
    && forall j :: 0 <= j < MAX_USERS && j != i ==> u.slots[j] == t.slots[j]
  }

  lemma FindElsewhere(t: Table, u: Table, i: nat, n: string)
    requires DifferAt(t, u, i) && n != "" && n != u.slots[i].name
    ensures Find(u.slots, n) == Find(t.slots, n) && Lookup(u.slots, n) == Lookup(t.slots, n)
  {
    var k := Find(t.slots, n);
    assert k != i;
    forall j | 0 <= j < k ensures u.slots[j].name != n {
      assert j != i ==> u.slots[j] == t.slots[j];
    }
    FirstIsFind(u.slots, n, k);
  }

  lemma FilledSlot(t: Table, u: Table, i: nat)
    requires DifferAt(t, u, i)
    ensures Lookup(t.slots, u.slots[i].name) == None
    ensures Lookup(u.slots, u.slots[i].name) == Some(Account(u.slots[i].pass, u.slots[i].state))
  {
    FindUnique(u, i);
  }

  /** Adding an absent name refuses exactly when the table is full, and never falls off the loop. */
  lemma AddIsInsert(t: Table, name: string, pass: string)
    requires Valid(t) && name != "" && Lookup(t.slots, name) == None
    ensures var (r, code) := Add(t, name, pass);
            && Valid(r)
            && (code == -1 <==> t.total == MAX_USERS)
            && (code == -1 ==> r == t)
            && (code != -1 ==> code == 0 && Updated(t.slots, r.slots, name, Some(Account(pass, Offline))))
  {
    FullMeansNoFree(t.slots);
    var free := Find(t.slots, "");
    if free < |t.slots| && t.total != MAX_USERS {
      var s := Slot(name, pass, Offline);
      var r := Table(t.slots[free := s], t.total + 1);
      NamedUpdate(t.slots, free, s);
      assert DifferAt(t, r, free);
      FilledSlot(t, r, free);
      forall n | n != "" && n != name ensures Lookup(r.slots, n) == Lookup(t.slots, n) {
        FindElsewhere(t, r, free, n);
      }
    }
  }

  /** Deleting refuses an unknown or busy name and otherwise removes exactly that name. */
  lemma DeleteIsRemove(t: Table, name: string)
    requires Valid(t) && name != ""
    ensures var (r, code) := Delete(t, name);
            var found := Lookup(t.slots, name);
            && Valid(r)
            && (code == -1 <==> found == None)
            && (code == -2 <==> found.Some? && found.value.state != Offline)
            && (code != 0 ==> r == t)
            && (code == 0 ==> Updated(t.slots, r.slots, name, None))
  {
    var i := Find(t.slots, name);
    if i < |t.slots| && t.slots[i].state == Offline {
      var r := Table(t.slots[i := FREE_SLOT], t.total - 1);
      NamedUpdate(t.slots, i, FREE_SLOT);
      assert DifferAt(r, t, i);
      FilledSlot(r, t, i);
      forall n | n != "" && n != name ensures Lookup(r.slots, n) == Lookup(t.slots, n) {
        FindElsewhere(r, t, i, n);
      }
    }
  }

  // ---------- every legal run ----------

  datatype TableOp = AddOp(name: string, pass: string) | DeleteOp(name: string) | SetOp(name: string, st: UserState)

  /** Names are non-empty, and an added name is absent. */
  predicate LegalOp(m: map<string, Account>, op: TableOp) {
    op.name != "" && (op.AddOp? ==> op.name !in m) && (op.SetOp? ==> op.st != NotFound)
  }

  function OnTable(t: Table, op: TableOp): (Table, int) {
    match op
    case AddOp(name, pass) => Add(t, name, pass)
    case DeleteOp(name) => Delete(t, name)
    case SetOp(name, st) => (t.(slots := SetState(t.slots, name, st)), 0)
  }

  function OnMap(m: map<string, Account>, op: TableOp): (map<string, Account>, int) {
    match op
    case AddOp(name, pass) =>
      if |m| == MAX_USERS then (m, -1) else (m[name := Account(pass, Offline)], 0)
    case DeleteOp(name) =>
      if name !in m then (m, -1) else if m[name].state != Offline then (m, -2) else (m - {name}, 0)
    case SetOp(name, st) => if name in m then (m[name := m[name].(state := st)], 0) else (m, 0)
  }

  ghost predicate Represents(t: Table, m: map<string, Account>) {
    && Valid(t) && t.total == |m| && "" !in m
    && forall n :: n != "" ==> Lookup(t.slots, n) == if n in m then Some(m[n]) else None
  }

  // A table update that matches a map update of the same size change.
  lemma UpdateRepresents(t: Table, u: Table, m: map<string, Account>, k: map<string, Account>, name: string)
    requires Represents(t, m) && Valid(u) && name != "" && u.total == |k|
    requires Updated(t.slots, u.slots, name, if name in k then Some(k[name]) else None)
    requires forall n :: n != name ==> (n in k <==> n in m) && (n in m ==> k[n] == m[n])
    ensures Represents(u, k)
  {
  }

  lemma AddRefines(t: Table, m: map<string, Account>, name: string, pass: string)
    requires Represents(t, m) && LegalOp(m, AddOp(name, pass))
    ensures Represents(Add(t, name, pass).0, OnMap(m, AddOp(name, pass)).0)
    ensures Add(t, name, pass).1 == OnMap(m, AddOp(name, pass)).1
  {
    AddIsInsert(t, name, pass);
    if t.total != MAX_USERS {
      var k := m[name := Account(pass, Offline)];
      assert k.Keys == m.Keys + {name};
      assert |k| == |k.Keys|;
      UpdateRepresents(t, Add(t, name, pass).0, m, k, name);
    }
  }

  lemma DeleteRefines(t: Table, m: map<string, Account>, name: string)
    requires Represents(t, m) && name != ""
    ensures Represents(Delete(t, name).0, OnMap(m, DeleteOp(name)).0)
    ensures Delete(t, name).1 == OnMap(m, DeleteOp(name)).1
  {
    DeleteIsRemove(t, name);
    if name in m && m[name].state == Offline {
      var k := m - {name};
      assert k.Keys == m.Keys - {name};
      assert |k| == |k.Keys|;
      UpdateRepresents(t, Delete(t, name).0, m, k, name);
    }
  }

  lemma SetRefines(t: Table, m: map<string, Account>, name: string, st: UserState)
    requires Represents(t, m) && name != "" && st != NotFound
    ensures Represents(t.(slots := SetState(t.slots, name, st)), OnMap(m, SetOp(name, st)).0)
  {
    if name in m {
      SetStateIsUpdate(t, name, st);
      var k := m[name := m[name].(state := st)];
      assert k.Keys == m.Keys;
      assert |k| == |k.Keys|;
      UpdateRepresents(t, t.(slots := SetState(t.slots, name, st)), m, k, name);
    } else {
      assert Find(t.slots, name) == |t.slots|;
      assert SetState(t.slots, name, st) == t.slots;
    }
  }

  lemma OpRefines(t: Table, m: map<string, Account>, op: TableOp)
    requires Represents(t, m) && LegalOp(m, op)
    ensures Represents(OnTable(t, op).0, OnMap(m, op).0) && OnTable(t, op).1 == OnMap(m, op).1
  {
    match op
    case AddOp(name, pass) => AddRefines(t, m, name, pass);
    case DeleteOp(name) => DeleteRefines(t, m, name);
    case SetOp(name, st) => SetRefines(t, m, name, st);
  }

  function RunTable(t: Table, ops: seq<TableOp>): (Table, seq<int>)
    decreases |ops|
  {
    if ops == [] then (t, [])
    else
      var (next, code) := OnTable(t, ops[0]);
      var (last, codes) := RunTable(next, ops[1..]);
      (last, [code] + codes)
  }

  function RunMap(m: map<string, Account>, ops: seq<TableOp>): (map<string, Account>, seq<int>)
    decreases |ops|
  {
    if ops == [] then (m, [])
    else
      var (next, code) := OnMap(m, ops[0]);
      var (last, codes) := RunMap(next, ops[1..]);
      (last, [code] + codes)
  }

  ghost predicate LegalRun(m: map<string, Account>, ops: seq<TableOp>)
    decreases |ops|
  {
    ops != [] ==> LegalOp(m, ops[0]) && LegalRun(OnMap(m, ops[0]).0, ops[1..])
  }

  /** Over every legal run the table behaves as the map: same return codes, same contents. */
  lemma {:induction false} TableRefinesMap(t: Table, m: map<string, Account>, ops: seq<TableOp>)
    requires Represents(t, m) && LegalRun(m, ops)
    ensures Represents(RunTable(t, ops).0, RunMap(m, ops).0)
    ensures RunTable(t, ops).1 == RunMap(m, ops).1
    decreases |ops|
  {
    if ops != [] {
      OpRefines(t, m, ops[0]);
      TableRefinesMap(OnTable(t, ops[0]).0, OnMap(m, ops[0]).0, ops[1..]);
    }
  }

  /** The password is right exactly when it is the one the map has for the name. */
  lemma CheckPassIsLookup(t: Table, m: map<string, Account>, name: string, pass: string)
    requires Represents(t, m) && name != ""
    ensures CheckPass(t.slots, name, pass) <==> name in m && m[name].pass == pass
  {
    assert Lookup(t.slots, name) == if name in m then Some(m[name]) else None;
  }

  // A table without names.
  lemma {:induction false} NoNames(slots: Slots)
    requires forall i :: 0 <= i < |slots| ==> slots[i] == FREE_SLOT
    ensures Named(slots) == 0 && forall n :: n != "" ==> Lookup(slots, n) == None
  {
    if slots != [] {
      NoNames(slots[..|slots| - 1]);
      forall n | n != "" ensures Lookup(slots, n) == None {
        FirstIsFind(slots, n, |slots|);
      }
    }
  }

  /** The table the server starts with is the empty map, so every legal run from there is covered. */
  lemma StartsAsEmptyMap(ops: seq<TableOp>)
    requires LegalRun(map[], ops)
    ensures var start := Table(seq(MAX_USERS, i => FREE_SLOT), 0);
            && Represents(start, map[])
            && Represents(RunTable(start, ops).0, RunMap(map[], ops).0)
            && RunTable(start, ops).1 == RunMap(map[], ops).1
  {
    var start := Table(seq(MAX_USERS, i => FREE_SLOT), 0);
    NoNames(start.slots);
    TableRefinesMap(start, map[], ops);
  }

  // ---------- where the table stops being a map ----------

  /** Adding a name that is already present duplicates it exactly when a free slot comes before it,
      and the duplicate hides the old slot; otherwise it is refused. */
  lemma AddPresent(t: Table, name: string, pass: string)
    requires Valid(t) && name != "" && Lookup(t.slots, name).Some?
    ensures var (r, code) := Add(t, name, pass);
            && (code == 0 <==> Find(t.slots, "") < Find(t.slots, name))
            && (code != 0 ==> r == t && code == if t.total == MAX_USERS then -1 else -2)
            && (code == 0 ==> !Valid(r) && GetState(r.slots, name) == Offline)
  {
    FullMeansNoFree(t.slots);
    var free, same := Find(t.slots, ""), Find(t.slots, name);
    if free < same {
      var r := t.slots[free := Slot(name, pass, Offline)];
      assert r[free].name == r[same].name == name;
      FirstIsFind(r, name, free);
    }
  }

  /** The empty name is found exactly when a slot is free: such a USER command is accepted. */
  lemma EmptyNameExists(t: Table)
    requires Valid(t)
    ensures Exists(t.slots, "") <==> t.total < MAX_USERS
  {
    FullMeansNoFree(t.slots);
  }
}
