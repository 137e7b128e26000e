/** The event loop's table of descriptors (selector.c): the caches it keeps for select(), and the dispatch
    pass, whose handlers may change the table under its feet. */
module Selectors {

  // ---------- the table ----------

  /** OP_READ and OP_WRITE, as separate bits. */
  datatype Ops = Ops(r: bool, w: bool)

  const NO_OPS := Ops(false, false)

  // FD_SETSIZE
  const ITEMS_MAX_SIZE: int := 1024

  const FD_UNUSED: int := -1

  /** `owner` stands for the handler and its data. */
  datatype Item = Item(fd: int, ops: Ops, owner: nat)

  const FREE := Item(FD_UNUSED, NO_OPS, 0)

  type Items = seq<Item>

  predicate Used(items: Items, fd: int) {
    0 <= fd < |items| && items[fd].fd != FD_UNUSED
  }

  predicate Reads(items: Items, fd: int) {
    Used(items, fd) && items[fd].ops.r
  }

  predicate Writes(items: Items, fd: int) {
    Used(items, fd) && items[fd].ops.w
  }

  predicate InvalidFd(fd: int) {
    fd < 0 || fd >= ITEMS_MAX_SIZE
  }

  /** Every used slot holds its own number, and none lies beyond what select() can watch. */
  ghost predicate WellFormed(items: Items) {
    && |items| <= ITEMS_MAX_SIZE + 1
    && forall i :: Used(items, i) ==> items[i].fd == i && !InvalidFd(i)
  }

  /** The exact maximum, 0 if nothing is registered. */
  ghost predicate IsMaxFd(items: Items, m: int) {
    && (forall i :: Used(items, i) ==> i <= m)
    && (m == 0 || Used(items, m))
  }

  datatype Status = Success | MaxFd | IllegalArgs | FdInUse

  // ---------- capacity ----------

  function Pow2(k: nat): nat {
    if k == 0 then 1 else 2 * Pow2(k - 1)
  }

  function Bits(n: nat): nat {
    if n == 0 then 0 else 1 + Bits(n / 2)
  }

  lemma {:induction false} Pow2Monotone(a: nat, b: nat)
    requires a <= b
    ensures Pow2(a) <= Pow2(b)
  {
    if a < b {
      Pow2Monotone(a, b - 1);
    }
  }

  lemma {:induction false} BitsBracket(n: nat)
    ensures n < Pow2(Bits(n)) && (n > 0 ==> Pow2(Bits(n) - 1) <= n)
  {
    if n > 0 {
      BitsBracket(n / 2);
    }
  }

  /** 2^Bits(n) is the least power of two above n. */
  lemma LeastPowerAbove(n: nat, k: nat)
    ensures n < Pow2(Bits(n))
    ensures n < Pow2(k) <==> Bits(n) <= k
  {
    BitsBracket(n);
    if Bits(n) <= k {
      Pow2Monotone(Bits(n), k);
    } else {
      Pow2Monotone(k, Bits(n) - 1);
    }
  }

  /** The shift of next_capacity stays in a 64-bit word exactly for the sizes below 2^63. */
  lemma ShiftFits(n: nat)
    ensures Bits(n) <= 63 <==> n < Pow2(63)
  {
    LeastPowerAbove(n, 63);
  }

  /** The least power of two above n, capped, and one more. */
  function Capacity(n: nat): nat {
    (if Pow2(Bits(n)) > ITEMS_MAX_SIZE then ITEMS_MAX_SIZE else Pow2(Bits(n))) + 1
  }

  /** next_capacity */
  method NextCapacity(n: nat) returns (size: nat)
    ensures size == Capacity(n)
    ensures n <= ITEMS_MAX_SIZE ==> n < size
  {
    var bits: nat, tmp: nat := 0, n;
    while tmp != 0
      invariant bits + Bits(tmp) == Bits(n)
    {
      tmp := tmp / 2;
      bits := bits + 1;
    }
    BitsBracket(n);
    tmp := Pow2(bits);
    if tmp > ITEMS_MAX_SIZE {
      tmp := ITEMS_MAX_SIZE;
    }
    size := tmp + 1;
  }

  /** selector_register grows the table only for a descriptor beyond its size, so that the slot it then
      writes exists exactly when the descriptor is not equal to the size. */
  function Grown(size: nat, fd: nat): nat {
    if fd > size then Capacity(fd) else size
  }

  lemma SlotExistsIff(size: nat, fd: nat)
    requires !InvalidFd(fd)
    ensures fd < Grown(size, fd) <==> fd != size
  {
    BitsBracket(fd);
  }

  // ---------- operations on the table ----------

  datatype Op = Register(fd: int, ops: Ops, owner: nat) | Unregister(fd: int) | SetInterest(fd: int, ops: Ops)

  /** On the server's table, which has a slot for every descriptor and never grows. */
  function Do(items: Items, op: Op): (r: Items)
    ensures |r| == |items|
  {
    match op
    case Register(fd, ops, owner) =>
      if InvalidFd(fd) || fd >= |items| || items[fd].fd != FD_UNUSED then items else items[fd := Item(fd, ops, owner)]
    case Unregister(fd) => if InvalidFd(fd) || !Used(items, fd) then items else items[fd := FREE]
    case SetInterest(fd, ops) =>
      if InvalidFd(fd) || !Used(items, fd) then items else items[fd := items[fd].(ops := ops)]
  }

  function DoAll(items: Items, ops: seq<Op>): (r: Items)
    ensures |r| == |items|
    decreases |ops|
  {
    if ops == [] then items else DoAll(Do(items, ops[0]), ops[1..])
  }

  // ---------- the object ----------

  class Selector {
    var fds: array<Item>
    var maxFd: int
    var masterR: set<int>
    var masterW: set<int>

    /** The caches agree with the table. */
    ghost predicate Valid()
      reads this, fds
    {
      && WellFormed(fds[..])
      && IsMaxFd(fds[..], maxFd)
      && (forall fd :: fd in masterR <==> Reads(fds[..], fd))
      && (forall fd :: fd in masterW <==> Writes(fds[..], fd))
    }

    // The server's size: room for every descriptor.
    ghost predicate Full()
      reads this
    {
      fds.Length == ITEMS_MAX_SIZE + 1
    }

    /** selector_new */
    constructor (initial: nat)
      requires initial <= ITEMS_MAX_SIZE
      ensures Valid() && fresh(fds) && initial < fds.Length
      ensures initial >= 512 ==> Full()
      ensures forall fd :: !Used(fds[..], fd)
    {
      fds := new Item[0];
      maxFd := 0;
      masterR, masterW := {}, {};
      new;
      var status := EnsureCapacity(initial, FREE);
      if initial >= 512 {
        LeastPowerAbove(initial, 9);
        Pow2Monotone(10, Bits(initial));
        assert Pow2(9) == 512 && Pow2(10) == 1024;
      }
    }

    /** ensure_capacity: a larger table with the same items; new slots are unused, whatever else the
        memory held. */
    method EnsureCapacity(n: nat, junk: Item) returns (status: Status)
      requires Valid()
      modifies this`fds
      ensures Valid() && (fds == old(fds) || fresh(fds))
      ensures status == if n < old(fds.Length) || n <= ITEMS_MAX_SIZE then Success else MaxFd
      ensures status == Success ==> n < fds.Length
      ensures status != Success ==> fds == old(fds)
      ensures old(fds.Length) <= fds.Length && fds[..old(fds.Length)] == old(fds[..])
      ensures forall fd :: Used(fds[..], fd) <==> Used(old(fds[..]), fd)
      ensures fds != old(fds) ==> fds.Length == Capacity(n)
      ensures n >= old(fds.Length) && status == Success ==> fds != old(fds)
    {
      if n < fds.Length {
        return Success;
      }
      if n > ITEMS_MAX_SIZE {
        return MaxFd;
      }
      var size := NextCapacity(n);
      var bigger := Copied(size, junk);
      UnusedBeyond(fds[..], bigger[..]);
      fds := bigger;
      status := Success;
    }

    // realloc, then items_init on what it added.
    method Copied(size: nat, junk: Item) returns (bigger: array<Item>)
      requires size >= fds.Length
      ensures fresh(bigger) && bigger.Length == size && bigger[..fds.Length] == fds[..]
      ensures forall k :: fds.Length <= k < size ==> bigger[k].fd == FD_UNUSED
    {
      bigger := new Item[size](i => junk);
      for i := 0 to fds.Length
        invariant bigger[..i] == fds[..i]
      {
        bigger[i] := fds[i];
      }
      for i := fds.Length to size
        invariant bigger[..fds.Length] == fds[..]
        invariant forall k :: fds.Length <= k < i ==> bigger[k].fd == FD_UNUSED
      {
        bigger[i] := bigger[i].(fd := FD_UNUSED);
      }
    }

    /** items_max_fd */
    method ItemsMaxFd() returns (max: int)
      requires WellFormed(fds[..]) && 0 <= maxFd
      requires forall i :: Used(fds[..], i) ==> i <= maxFd
      requires maxFd < fds.Length || maxFd == 0
      ensures IsMaxFd(fds[..], max)
    {
      max := 0;
      var i := 0;
      while i <= maxFd && i < fds.Length
        invariant 0 <= i && 0 <= max
        invariant forall k :: 0 <= k < i && Used(fds[..], k) ==> k <= max
        invariant max == 0 || Used(fds[..], max)
      {
        if fds[i].fd != FD_UNUSED {
          assert Used(fds[..], i);
          if fds[i].fd > max {
            max := fds[i].fd;
          }
        }
        i := i + 1;
      }
    }

    /** items_update_fdset_for_fd */
    method UpdateSets(item: Item)
      modifies this`masterR, this`masterW
      ensures masterR == (old(masterR) - {item.fd}) + (if item.fd != FD_UNUSED && item.ops.r then {item.fd} else {})
      ensures masterW == (old(masterW) - {item.fd}) + (if item.fd != FD_UNUSED && item.ops.w then {item.fd} else {})
    {
      masterR := masterR - {item.fd};
      masterW := masterW - {item.fd};
      if item.fd != FD_UNUSED {
        if item.ops.r {
          masterR := masterR + {item.fd};
        }
        if item.ops.w {
          masterW := masterW + {item.fd};
        }
      }
    }

    /** selector_register, on a table that has a slot for the descriptor. */
    method RegisterFd(fd: int, ops: Ops, owner: nat) returns (status: Status)
      requires Valid() && Full()
      modifies this`maxFd, this`masterR, this`masterW, fds
      ensures Valid() && Full() && fds[..] == Do(old(fds[..]), Register(fd, ops, owner))
      ensures status == if InvalidFd(fd) then IllegalArgs else if Used(old(fds[..]), fd) then FdInUse else Success
      ensures status == Success ==>
                && fds[fd].fd == fd && fds[fd].owner == owner
                && (Reads(fds[..], fd) <==> ops.r) && (Writes(fds[..], fd) <==> ops.w)
                && (fd in masterR <==> ops.r) && (fd in masterW <==> ops.w)
      ensures fds == old(fds)
      ensures forall g :: 0 <= g < fds.Length && (g != fd || status != Success) ==> fds[g] == old(fds[g])
    {
      if InvalidFd(fd) {
        return IllegalArgs;
      }
      if fds[fd].fd != FD_UNUSED {
        return FdInUse;
      }
      fds[fd] := Item(fd, ops, owner);
      if fd > maxFd {
        maxFd := fd;
      }
      UpdateSets(fds[fd]);
      status := Success;
      SlotChanged(old(fds[..]), fds[..], fd);
    }

    /** selector_unregister_fd, for a handle_close that leaves the table alone: POP3 connections and pipes have
        none, and the monitor's finds its connection already closed and returns. */
    method UnregisterFd(fd: int) returns (status: Status)
      requires Valid() && Full()
      modifies this`maxFd, this`masterR, this`masterW, fds
      ensures Valid() && Full() && fds[..] == Do(old(fds[..]), Unregister(fd))
      ensures status == if InvalidFd(fd) || !Used(old(fds[..]), fd) then IllegalArgs else Success
      ensures status == Success ==> !Used(fds[..], fd) && fd !in masterR && fd !in masterW
      ensures fds == old(fds)
      ensures forall g :: 0 <= g < fds.Length && (g != fd || status != Success) ==> fds[g] == old(fds[g])
    {
      if InvalidFd(fd) || fds[fd].fd == FD_UNUSED {
        return IllegalArgs;
      }
      UpdateSets(fds[fd].(ops := NO_OPS));
      fds[fd] := FREE;
      SlotChanged(old(fds[..]), fds[..], fd);
      maxFd := ItemsMaxFd();
      status := Success;
    }

    /** selector_set_interest */
    method SetInterestOf(fd: int, ops: Ops) returns (status: Status)
      requires Valid() && Full()
      modifies this`masterR, this`masterW, fds
      ensures Valid() && Full() && fds[..] == Do(old(fds[..]), SetInterest(fd, ops))
      ensures status == if InvalidFd(fd) || !Used(old(fds[..]), fd) then IllegalArgs else Success
      ensures status == Success ==>
                && Used(fds[..], fd) && fds[fd].owner == old(fds[fd].owner)
                && (Reads(fds[..], fd) <==> ops.r) && (Writes(fds[..], fd) <==> ops.w)
                && (fd in masterR <==> ops.r) && (fd in masterW <==> ops.w)
      ensures fds == old(fds)
      ensures forall g :: 0 <= g < fds.Length && (g != fd || status != Success) ==> fds[g] == old(fds[g])
    {
      if InvalidFd(fd) || fds[fd].fd == FD_UNUSED {
        return IllegalArgs;
      }
      fds[fd] := fds[fd].(ops := ops);
      UpdateSets(fds[fd]);
      SlotChanged(old(fds[..]), fds[..], fd);
      status := Success;
    }

    // What a handler does to the table.
    method DoOps(ops: seq<Op>)
      requires Valid() && Full()
      modifies this`maxFd, this`masterR, this`masterW, fds
      ensures Valid() && Full() && fds == old(fds) && fds[..] == DoAll(old(fds[..]), ops)
    {
      for k := 0 to |ops|
        invariant Valid() && Full() && fds == old(fds)
        invariant DoAll(old(fds[..]), ops) == DoAll(fds[..], ops[k..])
      {
        assert ops[k..][0] == ops[k] && ops[k..][1..] == ops[k + 1..];
        var _ := DoOp(ops[k]);
      }
    }

    method DoOp(op: Op) returns (status: Status)
      requires Valid() && Full()
      modifies this`maxFd, this`masterR, this`masterW, fds
      ensures Valid() && Full() && fds == old(fds) && fds[..] == Do(old(fds[..]), op)
    {
      match op
      case Register(fd, ops, owner) => status := RegisterFd(fd, ops, owner);
      case Unregister(fd) => status := UnregisterFd(fd);
      case SetInterest(fd, ops) => status := SetInterestOf(fd, ops);
    }

    /** handle_iteration: slaveR and slaveW are what select() left of the two sets. */
    method HandleIteration(slaveR: set<int>, slaveW: set<int>, plan: Plan) returns (calls: seq<Call>)
      requires Valid() && Full()
      modifies this`maxFd, this`masterR, this`masterW, fds
      ensures Valid() && Full()
      ensures State(fds[..], calls) == Pass(State(old(fds[..]), []), 0, old(maxFd) + 1, slaveR, slaveW, plan)
    {
      calls := [];
      var n := maxFd;
      ghost var start := State(fds[..], []);
      for i := 0 to n + 1
        invariant Valid() && Full() && fds == old(fds) && n < fds.Length
        invariant Pass(start, 0, n + 1, slaveR, slaveW, plan) ==
                  Pass(State(fds[..], calls), i, n + 1, slaveR, slaveW, plan)
      {
        calls := VisitItem(i, slaveR, slaveW, plan, calls);
      }
    }

    // One turn of the loop.
    method VisitItem(i: int, slaveR: set<int>, slaveW: set<int>, plan: Plan, before: seq<Call>)
      returns (calls: seq<Call>)
      requires Valid() && Full() && 0 <= i < fds.Length
      modifies this`maxFd, this`masterR, this`masterW, fds
      ensures Valid() && Full() && fds == old(fds)
      ensures State(fds[..], calls) == Visit(State(old(fds[..]), before), i, slaveR, slaveW, plan)
    {
      calls := before;
      if fds[i].fd != FD_UNUSED {
        var owner := fds[i].owner;
        if i in slaveR && fds[i].ops.r {
          calls := calls + [Call(i, ToRead, owner)];
          DoOps(plan(calls));
        }
        if i in slaveW && fds[i].ops.w {
          calls := calls + [Call(i, ToWrite, owner)];
          DoOps(plan(calls));
        }
      }
    }

    /** selector_select: of the descriptors waited for, select() reports those in `ready`. Each descriptor
        that was ready and waited for, and that no handler touches, is called; nothing else is. */
    method Select(readyR: set<int>, readyW: set<int>, plan: Plan) returns (calls: seq<Call>)
      requires Valid() && Full()
      modifies this`maxFd, this`masterR, this`masterW, fds
      ensures Valid() && Full()
      ensures Orderly(calls, ITEMS_MAX_SIZE, old(masterR) * readyR, old(masterW) * readyW)
      ensures forall fd :: fd in readyR && Reads(old(fds[..]), fd) && Spares(plan, fd) ==>
                Call(fd, ToRead, old(fds[..])[fd].owner) in calls
      ensures forall fd :: fd in readyW && Writes(old(fds[..]), fd) && Spares(plan, fd) ==>
                Call(fd, ToWrite, old(fds[..])[fd].owner) in calls
    {
      ghost var start := State(fds[..], []);
      ghost var slaveR, slaveW, n := masterR * readyR, masterW * readyW, maxFd + 1;
      PassIsOrderly(start, 0, n, slaveR, slaveW, plan);
      forall fd | Used(fds[..], fd) && Spares(plan, fd)
        ensures var r := Pass(start, 0, n, slaveR, slaveW, plan);
                && (fd in slaveR && Reads(fds[..], fd) ==> Call(fd, ToRead, fds[..][fd].owner) in r.calls)
                && (fd in slaveW && Writes(fds[..], fd) ==> Call(fd, ToWrite, fds[..][fd].owner) in r.calls)
      {
        SparedIsServed(start, 0, n, slaveR, slaveW, plan, fd);
      }
      calls := HandleIteration(masterR * readyR, masterW * readyW, plan);
    }
  }

  // ---------- the pass ----------

  datatype Direction = ToRead | ToWrite

  /** A handler called for `fd`, with the data of `owner`. */
  datatype Call = Call(fd: int, dir: Direction, owner: nat)

  /** The handlers: what each does to the table may depend on all the calls so far. */
  type Plan = seq<Call> -> seq<Op>

  datatype State = State(items: Items, calls: seq<Call>)

  function Handle(s: State, c: Call, plan: Plan): State {
    State(DoAll(s.items, plan(s.calls + [c])), s.calls + [c])
  }

  function ReadTurn(s: State, i: int, owner: nat, slaveR: set<int>, plan: Plan): State {
    if i in slaveR && Reads(s.items, i) then Handle(s, Call(i, ToRead, owner), plan) else s
  }

  // The write test looks at the slot as the read handler left it, used or not.
  function WriteTurn(s: State, i: int, owner: nat, slaveW: set<int>, plan: Plan): State
    requires 0 <= i < |s.items|
  {
    if i in slaveW && s.items[i].ops.w then Handle(s, Call(i, ToWrite, owner), plan) else s
  }

  function Visit(s: State, i: int, slaveR: set<int>, slaveW: set<int>, plan: Plan): (r: State)
    requires 0 <= i < |s.items|
    ensures |r.items| == |s.items|
  {
    if !Used(s.items, i) then s
    else
      var owner := s.items[i].owner;
      WriteTurn(ReadTurn(s, i, owner, slaveR, plan), i, owner, slaveW, plan)
  }

  function Pass(s: State, i: int, n: int, slaveR: set<int>, slaveW: set<int>, plan: Plan): (r: State)
    requires 0 <= i <= n <= |s.items|
    ensures |r.items| == |s.items|
    decreases n - i
  {
    if i == n then s else Pass(Visit(s, i, slaveR, slaveW, plan), i + 1, n, slaveR, slaveW, plan)
  }

  // ---------- what the pass calls ----------

  // A slot in use stays in use or is wiped.
  lemma {:induction false} UsedOrFree(items: Items, ops: seq<Op>, i: int)
    requires 0 <= i < |items| && (Used(items, i) || items[i] == FREE)
    ensures var r := DoAll(items, ops); Used(r, i) || r[i] == FREE
    decreases |ops|
  {
    if ops != [] {
      UsedOrFree(Do(items, ops[0]), ops[1..], i);
    }
  }

  /** A descriptor that its own read handler leaves unregistered gets no write call in this pass; one that
      is called to write is registered, with that interest, at that moment. */
  lemma NoWriteOnceUnregistered(s: State, i: int, slaveR: set<int>, slaveW: set<int>, plan: Plan)
    requires 0 <= i < |s.items| && Used(s.items, i)
    ensures var owner := s.items[i].owner;
            var mid := ReadTurn(s, i, owner, slaveR, plan);
            && (!Used(mid.items, i) ==> Visit(s, i, slaveR, slaveW, plan) == mid)
            && (Visit(s, i, slaveR, slaveW, plan) != mid ==> i in slaveW && Writes(mid.items, i))
  {
    var mid := ReadTurn(s, i, s.items[i].owner, slaveR, plan);
    if i in slaveR && Reads(s.items, i) {
      UsedOrFree(s.items, plan(s.calls + [Call(i, ToRead, s.items[i].owner)]), i);
    }
    assert mid.calls + [Call(i, ToWrite, s.items[i].owner)] != mid.calls;
  }

  // Operations that do not unregister a slot leave its owner alone.
  lemma {:induction false} OwnerIsKept(items: Items, ops: seq<Op>, i: int)
    requires Used(items, i) && forall k :: 0 <= k < |ops| ==> !(ops[k].Unregister? && ops[k].fd == i)
    ensures Used(DoAll(items, ops), i) && DoAll(items, ops)[i].owner == items[i].owner
    decreases |ops|
  {
    if ops != [] {
      OwnerIsKept(Do(items, ops[0]), ops[1..], i);
    }
  }

  /** A turn's write call hands over the data that were read when the turn began. They are those of the owner
      registered at the moment of the call, unless the descriptor's own read handler has unregistered it. */
  lemma OwnerIsCurrent(s: State, i: int, slaveR: set<int>, slaveW: set<int>, plan: Plan)
    requires 0 <= i < |s.items| && Used(s.items, i)
    requires var ops := plan(s.calls + [Call(i, ToRead, s.items[i].owner)]);
             forall k :: 0 <= k < |ops| ==> !(ops[k].Unregister? && ops[k].fd == i)
    ensures var mid := ReadTurn(s, i, s.items[i].owner, slaveR, plan);
            var r := Visit(s, i, slaveR, slaveW, plan);
            && Used(mid.items, i)
            && (r != mid ==> r == Handle(mid, Call(i, ToWrite, mid.items[i].owner), plan))
  {
    OwnerIsKept(s.items, plan(s.calls + [Call(i, ToRead, s.items[i].owner)]), i);
  }

  predicate Earlier(a: Call, b: Call) {
    a.fd < b.fd || (a.fd == b.fd && a.dir == ToRead && b.dir == ToWrite)
  }

  predicate Reported(c: Call, slaveR: set<int>, slaveW: set<int>) {
    if c.dir == ToRead then c.fd in slaveR else c.fd in slaveW
  }

  // The calls made before slot `i` is visited.
  ghost predicate Orderly(calls: seq<Call>, i: int, slaveR: set<int>, slaveW: set<int>) {
    && (forall a, b :: 0 <= a < b < |calls| ==> Earlier(calls[a], calls[b]))
    && (forall a :: 0 <= a < |calls| ==> calls[a].fd < i && Reported(calls[a], slaveR, slaveW))
  }

  lemma VisitIsOrderly(s: State, i: int, slaveR: set<int>, slaveW: set<int>, plan: Plan)
    requires 0 <= i < |s.items| && Orderly(s.calls, i, slaveR, slaveW)
    ensures Orderly(Visit(s, i, slaveR, slaveW, plan).calls, i + 1, slaveR, slaveW)
  {
  }

  /** Only reported descriptors are called, in ascending order, each at most once to read and then at
      most once to write, whatever the handlers do to the table. */
  lemma {:induction false} PassIsOrderly(s: State, i: int, n: int, slaveR: set<int>, slaveW: set<int>, plan: Plan)
    requires 0 <= i <= n <= |s.items| && Orderly(s.calls, i, slaveR, slaveW)
    ensures Orderly(Pass(s, i, n, slaveR, slaveW, plan).calls, n, slaveR, slaveW)
    decreases n - i
  {
    if i < n {
      VisitIsOrderly(s, i, slaveR, slaveW, plan);
      PassIsOrderly(Visit(s, i, slaveR, slaveW, plan), i + 1, n, slaveR, slaveW, plan);
    }
  }

  /** The handlers keep their hands off descriptor `fd`. */
  ghost predicate Spares(plan: Plan, fd: int) {
    forall calls, k :: 0 <= k < |plan(calls)| ==> plan(calls)[k].fd != fd
  }

  lemma {:induction false} SparedSlot(items: Items, ops: seq<Op>, fd: int)
    requires 0 <= fd < |items| && forall k :: 0 <= k < |ops| ==> ops[k].fd != fd
    ensures DoAll(items, ops)[fd] == items[fd]
    decreases |ops|
  {
    if ops != [] {
      SparedSlot(Do(items, ops[0]), ops[1..], fd);
    }
  }

  lemma SparedVisit(s: State, i: int, slaveR: set<int>, slaveW: set<int>, plan: Plan, fd: int)
    requires 0 <= i < |s.items| && 0 <= fd < |s.items| && Spares(plan, fd)
    ensures var r := Visit(s, i, slaveR, slaveW, plan);
            && r.items[fd] == s.items[fd] && s.calls <= r.calls
            && (i == fd && fd in slaveR && Reads(s.items, fd) ==> Call(fd, ToRead, s.items[fd].owner) in r.calls)
            && (i == fd && fd in slaveW && Writes(s.items, fd) ==> Call(fd, ToWrite, s.items[fd].owner) in r.calls)
  {
    if Used(s.items, i) {
      var owner := s.items[i].owner;
      var mid := ReadTurn(s, i, owner, slaveR, plan);
      SparedSlot(s.items, plan(s.calls + [Call(i, ToRead, owner)]), fd);
      SparedSlot(mid.items, plan(mid.calls + [Call(i, ToWrite, owner)]), fd);
    }
  }

  /** Nobody is forgotten: a reported descriptor that no handler touches gets its calls, with its own data. */
  lemma {:induction false} SparedIsServed(s: State, i: int, n: int, slaveR: set<int>, slaveW: set<int>, plan: Plan,
                                          fd: int)
    requires 0 <= i <= fd < n <= |s.items| && Spares(plan, fd)
    ensures var r := Pass(s, i, n, slaveR, slaveW, plan);
            && (fd in slaveR && Reads(s.items, fd) ==> Call(fd, ToRead, s.items[fd].owner) in r.calls)
            && (fd in slaveW && Writes(s.items, fd) ==> Call(fd, ToWrite, s.items[fd].owner) in r.calls)
    decreases n - i
  {
    var next := Visit(s, i, slaveR, slaveW, plan);
    SparedVisit(s, i, slaveR, slaveW, plan, fd);
    if i < fd {
      SparedIsServed(next, i + 1, n, slaveR, slaveW, plan, fd);
    } else {
      CallsGrow(next, i + 1, n, slaveR, slaveW, plan);
    }
  }

  lemma {:induction false} CallsGrow(s: State, i: int, n: int, slaveR: set<int>, slaveW: set<int>, plan: Plan)
    requires 0 <= i <= n <= |s.items|
    ensures s.calls <= Pass(s, i, n, slaveR, slaveW, plan).calls
    decreases n - i
  {
    if i < n {
      CallsGrow(Visit(s, i, slaveR, slaveW, plan), i + 1, n, slaveR, slaveW, plan);
    }
  }

  lemma UnusedBeyond(before: Items, after: Items)
    requires |before| <= |after| && after[..|before|] == before
    requires forall k :: |before| <= k < |after| ==> after[k].fd == FD_UNUSED
    ensures forall fd :: Used(after, fd) <==> Used(before, fd)
    ensures forall fd :: Used(before, fd) ==> after[fd] == before[fd]
  {
    assert forall k :: 0 <= k < |before| ==> after[k] == after[..|before|][k];
  }

  lemma SlotChanged(before: Items, after: Items, fd: int)
    requires |after| == |before| && 0 <= fd < |before| && after == before[fd := after[fd]]
    ensures forall i :: i != fd ==> (Used(after, i) <==> Used(before, i))
    ensures forall i :: i != fd ==> (Reads(after, i) <==> Reads(before, i)) && (Writes(after, i) <==> Writes(before, i))
  {
  }
}
