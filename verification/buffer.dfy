/** The linear I/O buffer with its read and write marks (buffer.c). `Buf` is what a buffer means,
    `Buffer` is the object whose marks move over a fixed array. */
module Buffers {
  import opened Text

  const BUFFER_SIZE: nat := 32768

  /** `read` is the offset of the first unread byte, `content` the unread bytes. */
  datatype Buf = Buf(cap: nat, read: nat, content: string) {

    predicate Valid() {
      read + |content| <= cap
    }

    /** Bytes that fit after the write mark. */
    function Room(): int {
      cap - read - |content|
    }

    /** A drained buffer is compacted, so it always offers its whole capacity. */
    predicate Normal() {
      Valid() && (content == [] ==> read == 0)
    }

    function Compact(): Buf {
      this.(read := 0)
    }

    function Put(bytes: string): Buf {
      this.(content := content + bytes)
    }

    function Advance(n: nat): Buf
      requires n <= |content|
    {
      if n == |content| then Buf(cap, 0, []) else Buf(cap, read + n, content[n..])
    }
  }

  function EmptyBuf(cap: nat): Buf {
    Buf(cap, 0, [])
  }

  class Buffer {
    const data: array<char>
    var read: nat
    var write: nat

    ghost predicate Valid()
      reads this
    {
      read <= write <= data.Length
    }

    ghost function Model(): Buf
      reads this, data
      requires Valid()
    {
      Buf(data.Length, read, data[read..write])
    }

    constructor (n: nat)
      ensures Valid() && fresh(data)
      ensures Model() == EmptyBuf(n)
    {
      data := new char[n];
      read := 0;
      write := 0;
    }

    method CanWrite() returns (ok: bool)
      requires Valid()
      ensures ok <==> Model().Room() > 0
    {
      ok := data.Length - write > 0;
    }

    method CanRead() returns (ok: bool)
      requires Valid()
      ensures ok <==> Model().content != []
    {
      ok := write - read > 0;
    }

    /** The `nbyte` that buffer_write_ptr reports. */
    method WriteLimit() returns (nbyte: nat)
      requires Valid()
      ensures nbyte == Model().Room()
    {
      nbyte := data.Length - write;
    }

    /** The `nbyte` that buffer_read_ptr reports. */
    method ReadLimit() returns (nbyte: nat)
      requires Valid()
      ensures nbyte == |Model().content|
    {
      nbyte := write - read;
    }

    /** The bytes behind buffer_read_ptr, as `send` sees the first `n` of them. */
    method Peek(n: nat) returns (bytes: string)
      requires Valid() && n <= |Model().content|
      ensures bytes == Model().content[..n]
    {
      bytes := data[read..read + n];
    }

    /** Copies to buffer_write_ptr and calls buffer_write_adv. */
    method Put(bytes: string)
      requires Valid() && |bytes| <= Model().Room()
      modifies this`write, data
      ensures Valid() && Model() == old(Model()).Put(bytes)
    {
      var i := 0;
      while i < |bytes|
        invariant 0 <= i <= |bytes| && read == old(read) && write == old(write)
        invariant data[..write] == old(data[..write])
        invariant data[write..write + i] == bytes[..i]
      {
        data[write + i] := bytes[i];
        assert data[write..write + i + 1] == data[write..write + i] + [bytes[i]];
        i := i + 1;
      }
      write := write + |bytes|;
      assert data[read..write] == data[..old(write)][read..] + data[old(write)..write];
      assert old(data[..write])[read..] == old(data[read..write]);
    }

    /** buffer_compact: the overlapping move to the front. */
    method Compact()
      requires Valid()
      modifies this, data
      ensures Valid() && Model() == old(Model()).Compact()
    {
      if read == 0 {
      } else if read == write {
        read := 0;
        write := 0;
      } else {
        var n := write - read;
        MoveToFront(n);
        read := 0;
        write := n;
        assert data[0..n] == old(data[read..write]);
      }
    }

    // memmove(data, read, n), front to back: a byte is overwritten only after it was copied.
    method MoveToFront(n: nat)
      requires Valid() && read + n == write && read > 0
      modifies data
      ensures data[..n] == old(data[read..write])
    {
      var i := 0;
      while i < n
        invariant 0 <= i <= n
        invariant forall k :: 0 <= k < i ==> data[k] == old(data[read + k])
        invariant forall k :: i <= k < data.Length ==> data[k] == old(data[k])
      {
        data[i] := data[read + i];
        i := i + 1;
      }
      assert forall k :: 0 <= k < n ==> data[..n][k] == old(data[read..write])[k];
    }

    method ReadAdv(n: nat)
      requires Valid() && n <= |Model().content|
      modifies this, data
      ensures Valid() && Model() == old(Model()).Advance(n)
    {
      read := read + n;
      assert data[read..write] == old(data[read..write])[n..];
      if read == write {
        Compact();
      }
    }

    /** buffer_read: the next byte, or 0 when there is none. */
    method ReadByte() returns (c: char)
      requires Valid()
      modifies this, data
      ensures Valid()
      ensures if old(Model()).content == [] then c == NUL && Model() == old(Model())
              else c == old(Model()).content[0] && Model() == old(Model()).Advance(1)
    {
      var more := CanRead();
      if more {
        c := data[read];
        ReadAdv(1);
      } else {
        c := NUL;
      }
    }

    /** buffer_write: a byte that does not fit is dropped. */
    method WriteByte(c: char)
      requires Valid()
      modifies this`write, data
      ensures Valid()
      ensures Model() == if old(Model()).Room() > 0 then old(Model()).Put([c]) else old(Model())
    {
      var fits := CanWrite();
      if fits {
        Put([c]);
      }
    }
  }

  // ---------- the buffer is a FIFO ----------

  /** What callers do to a buffer. `Fill` is a recv or read that yields at most the room offered. */
  datatype BufOp = Fill(bytes: string) | Drain(n: nat) | CompactOp | ReadByteOp | WriteByteOp(c: char)

  datatype Trace = Trace(buf: Buf, written: string, taken: string)

  function Apply(t: Trace, op: BufOp): Trace
    requires t.buf.Valid()
  {
    var b := t.buf;
    match op
    case Fill(bytes) =>
      var got := Take(bytes, b.Room());
      Trace(b.Put(got), t.written + got, t.taken)
    case Drain(n) =>
      var k := Min(n, |b.content|);
      Trace(b.Advance(k), t.written, t.taken + b.content[..k])
    case CompactOp => t.(buf := b.Compact())
    case ReadByteOp =>
      if b.content == [] then t
      else Trace(b.Advance(1), t.written, t.taken + b.content[..1])
    case WriteByteOp(c) =>
      if b.Room() > 0 then Trace(b.Put([c]), t.written + [c], t.taken) else t
  }

  function ApplyAll(t: Trace, ops: seq<BufOp>): (r: Trace)
    requires t.buf.Valid()
    ensures r.buf.Valid()
    decreases |ops|
  {
    if ops == [] then t else ApplyAll(Apply(t, ops[0]), ops[1..])
  }

  ghost predicate Fifo(t: Trace) {
    t.buf.Normal() && t.written == t.taken + t.buf.content
  }

  lemma ApplyKeepsFifo(t: Trace, op: BufOp)
    requires Fifo(t)
    ensures Fifo(Apply(t, op)) && Apply(t, op).buf.cap == t.buf.cap
  {
    var b := t.buf;
    match op
    case Drain(n) => assert b.content == b.content[..Min(n, |b.content|)] + b.content[Min(n, |b.content|)..];
    case ReadByteOp =>
      if b.content != [] {
        assert b.content == b.content[..1] + b.content[1..];
      }
    case _ =>
  }

  /** Every operation sequence: what was written is what was taken followed by what is still held,
      the marks stay ordered, and a drained buffer has all its room back. */
  lemma {:induction false} BufferIsFifo(t: Trace, ops: seq<BufOp>)
    requires Fifo(t)
    ensures var r := ApplyAll(t, ops);
            && Fifo(r) && r.buf.cap == t.buf.cap
            && (r.buf.content == [] ==> r.buf.Room() == r.buf.cap)
    decreases |ops|
  {
    if ops != [] {
      ApplyKeepsFifo(t, ops[0]);
      BufferIsFifo(Apply(t, ops[0]), ops[1..]);
    }
  }
}
