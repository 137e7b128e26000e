/** The texts a session sends, with the printf widths of the originals. */
module Replies {
  import opened Text

  const TERMINATOR: string := ".\r\n"
  /** 19 bytes: the greeting is sent with its C terminator. */
  const GREETING: string := "+OK server ready\r\n\0"
  const CAPABILITIES: string := "+OK Capability list follows\r\n" + "USER\r\nPIPELINING\r\n.\r\n"

  const SERVER_ERROR: string := "-ERR server error\r\n"
  const INVALID_COMMAND: string := "-ERR invalid command\r\n"
  const NOOP: string := "+OK\r\n"

  // Unsigned arithmetic wraps.
  function U32(x: int): nat {
    x % 0x1_0000_0000
  }

  function U64(x: int): nat {
    x % 0x1_0000_0000_0000_0000
  }

  function StatLine(count: nat, size: nat): string {
    "+OK " + Dec(count) + " " + Dec(size) + "\r\n"
  }

  function ListHeader(count: nat, size: nat): string {
    "+OK " + Dec(count) + " new messages (" + Dec(size) + " octects)\r\n"
  }

  function ScanLine(n: nat, size: nat): string {
    Dec(n) + " " + Dec(size) + "\r\n"
  }

  function ListOne(n: nat, size: nat): string {
    "+OK " + ScanLine(n, size)
  }

  function RetrHeader(size: nat): string {
    "+OK " + Dec(size) + " octects\r\n"
  }

  function Deleted(n: nat): string {
    "+OK message " + Dec(n) + " deleted\r\n"
  }

  function IsDeleted(n: nat): string {
    "-ERR message " + Dec(n) + " deleted\r\n"
  }

  function AlreadyDeleted(n: nat): string {
    "-ERR message " + Dec(n) + " already deleted\r\n"
  }

  function MustGive(len: nat): string {
    "-ERR must give message to delete, " + Dec(len) + " messages in maildrop\r\n"
  }

  function NotUnderstood(len: nat): string {
    "-ERR could not understand argument, " + Dec(len) + " messages in maildrop\r\n"
  }

  function NoSuchMessage(len: nat): string {
    "-ERR no such message, only " + Dec(len) + " messages in maildrop\r\n"
  }

  function ResetLine(len: nat, size: nat): string {
    "+OK maildrop has " + Dec(len) + " messages (" + Dec(size) + " octects)\r\n"
  }

  /** `unread` counts every mail that was not read, deleted ones included; `left` what stays in new/. */
  function SignOff(left: nat, unread: nat, ndel: nat, len: nat): string {
    if left == 0 then "+OK server signing off (maildrop empty)\r\n"
    else "+OK server signing off (" + Dec(unread) + " unread, " + Dec(ndel) + " removed, " + Dec(len) + " total)\r\n"
  }

  /** The commands that take a number refuse it in the same two ways. */
  function NumberError(n: int, len: nat): Option<string> {
    if n == 0 then Some(NotUnderstood(len))
    else if n < 0 || n > len then Some(NoSuchMessage(len))
    else None
  }

  const MAX_REPLY: nat := 120

  lemma ShortNumbers(a: nat, b: nat)
    requires a < 0x1_0000_0000 && b < 0x1_0000_0000_0000_0000
    ensures |Dec(a)| <= 10 && |Dec(b)| <= 20
  {
    assert Pow10(10) == 10_000_000_000;
    assert Pow10(20) == 100_000_000_000_000_000_000 by {
      assert Pow10(20) == 10 * Pow10(19) == 100 * Pow10(18) == 1000 * Pow10(17);
      assert Pow10(17) == 10 * Pow10(16) == 100 * Pow10(15);
      assert Pow10(15) == 100000 * Pow10(10);
    }
    DecLength(a, 10);
    DecLength(b, 20);
  }

  /** Every reply built from machine-size numbers is short. */
  lemma TotalsAreShort(len: nat, size: nat)
    requires len < 0x1_0000_0000 && size < 0x1_0000_0000_0000_0000
    ensures 0 < |StatLine(len, size)| <= MAX_REPLY && 0 < |ListHeader(len, size)| <= MAX_REPLY
    ensures 0 < |ResetLine(len, size)| <= MAX_REPLY
  {
    ShortNumbers(len, size);
  }

  lemma NumbersAreShort(n: nat, size: nat)
    requires n < 0x1_0000_0000 && size < 0x1_0000_0000
    ensures 0 < |ListOne(n, size)| <= MAX_REPLY && 0 < |ScanLine(n, size)| <= MAX_REPLY
    ensures 0 < |RetrHeader(n)| <= MAX_REPLY
    ensures 0 < |Deleted(n)| <= MAX_REPLY && 0 < |IsDeleted(n)| <= MAX_REPLY && 0 < |AlreadyDeleted(n)| <= MAX_REPLY
    ensures 0 < |MustGive(n)| <= MAX_REPLY && 0 < |NotUnderstood(n)| <= MAX_REPLY && 0 < |NoSuchMessage(n)| <= MAX_REPLY
  {
    ShortNumbers(n, 0);
    ShortNumbers(size, 0);
  }

  lemma SignOffIsShort(left: nat, unread: nat, ndel: nat, len: nat)
    requires unread < 0x1_0000_0000 && ndel < 0x1_0000_0000 && len < 0x1_0000_0000
    ensures 0 < |SignOff(left, unread, ndel, len)| <= MAX_REPLY
  {
    ShortNumbers(unread, 0);
    ShortNumbers(ndel, 0);
    ShortNumbers(len, 0);
  }
}
