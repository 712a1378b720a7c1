/** Bytes and machine words, the reserved bytes of the node stream, and the bit operation the block cache needs. */
module Bytes {

  type byte = x: int | 0 <= x < 256

  const NODE_START: byte := 0xFE
  const NODE_END: byte := 0xFF
  const ESCAPE_CHAR: byte := 0xFD

  datatype Option<+T> = None | Some(value: T)

  predicate Special(b: byte) {
    b == NODE_START || b == NODE_END || b == ESCAPE_CHAR
  }

  ghost predicate NoDuplicates<T>(s: seq<T>) {
    forall i, j :: 0 <= i < j < |s| ==> s[i] != s[j]
  }

  function Min(a: int, b: int): (r: int)
    ensures r <= a && r <= b && (r == a || r == b)
  {
    if a <= b then a else b
  }

  function Max(a: int, b: int): (r: int)
    ensures a <= r && b <= r && (r == a || r == b)
  {
    if a <= b then b else a
  }

  /** `a & ~b` on unsigned machine words, bit by bit. */
  function AndNot(a: nat, b: nat): nat {
    if a == 0 then 0
    else 2 * AndNot(a / 2, b / 2) + (if a % 2 == 1 && b % 2 == 0 then 1 else 0)
  }

  /** Clearing the bits of `b` never lowers `a` by more than `b`, whether or not `b` is one less than a power of two. */
  lemma {:induction false} AndNotWithin(a: nat, b: nat)
    ensures a - b <= AndNot(a, b) <= a
  {
    if a != 0 {
      AndNotWithin(a / 2, b / 2);
    }
  }

  /** What is left of a number that is stored in eight bits. */
  function LowByte(n: nat): (b: byte)
    ensures n < 256 ==> b == n
    ensures 256 <= n < 512 ==> b == n - 256
  {
    n % 256
  }

  const UINT32 := 0x1_0000_0000

  /** Signed 32-bit arithmetic. */
  function Int32(n: int): int {
    (n + 0x8000_0000) % 0x1_0000_0000 - 0x8000_0000
  }

  lemma ConcatAssoc<T>(a: seq<T>, b: seq<T>, c: seq<T>)
    ensures a + (b + c) == a + b + c
  {
  }
}
