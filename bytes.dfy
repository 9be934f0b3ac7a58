/** Byte-level helpers shared by the wire codec: octets, big-endian 32-bit
    fields (Node's Buffer.writeUInt32BE / readUInt32BE / readInt32BE) and the
    bitwise OR that packs two header fields into one octet. */
module Bytes {

  type Byte = b: int | 0 <= b < 256

  const TWO_31: int := 0x8000_0000
  const TWO_32: int := 0x1_0000_0000

  /** The values an unsigned 32-bit length or code field can hold. */
  type U32 = n: int | 0 <= n < 0x1_0000_0000

  function Pow2(k: nat): (r: nat)
    ensures r >= 1
  {
    if k == 0 then 1 else 2 * Pow2(k - 1)
  }

  /** Bitwise OR of two non-negative integers, as JavaScript's `|` computes it
      on the small operands the header packing uses. */
  function BitOr(a: nat, b: nat): nat
    decreases a + b
  {
    if a == 0 then b
    else if b == 0 then a
    else 2 * BitOr(a / 2, b / 2) + (if a % 2 == 1 || b % 2 == 1 then 1 else 0)
  }

  /** OR-ing a value shifted left by k bits with one that fits in k bits is
      plain addition: the two never share a set bit. */
  lemma {:induction false} BitOrDisjoint(a: nat, b: nat, k: nat)
    requires b < Pow2(k)
    ensures BitOr(a * Pow2(k), b) == a * Pow2(k) + b
  {
    if k == 0 || a == 0 || b == 0 {
    } else {
      var m := a * Pow2(k - 1);
      assert a * Pow2(k) == 2 * m;
      assert m >= 1 by { assert a * Pow2(k - 1) >= Pow2(k - 1); }
      BitOrDisjoint(a, b / 2, k - 1);
      assert BitOr(2 * m, b) == 2 * BitOr(m, b / 2) + b % 2;
    }
  }

  /** The four octets Buffer.writeUInt32BE stores for n, most significant first. */
  function BE32(n: U32): (r: seq<Byte>)
    ensures |r| == 4
  {
    var q0 := n / 0x100;
    var q1 := q0 / 0x100;
    [q1 / 0x100, q1 % 0x100, q0 % 0x100, n % 0x100]
  }

  /** Buffer.readUInt32BE(off): the caller has checked that four octets exist. */
  function ReadUInt32BE(s: seq<Byte>, off: nat): (r: U32)
    requires off + 4 <= |s|
  {
    (s[off] as int) * 0x100_0000 + (s[off + 1] as int) * 0x1_0000 + (s[off + 2] as int) * 0x100 + s[off + 3] as int
  }

  /** Buffer.readInt32BE(off): the same octets read as a two's-complement value. */
  function ReadInt32BE(s: seq<Byte>, off: nat): (r: int)
    requires off + 4 <= |s|
    ensures -TWO_31 <= r < TWO_31
    ensures (r - ReadUInt32BE(s, off)) % TWO_32 == 0
  {
    var u := ReadUInt32BE(s, off);
    if u >= TWO_31 then u - TWO_32 else u
  }

  /** Reading back what writeUInt32BE wrote returns the value written. */
  lemma ReadBE32(n: U32, prefix: seq<Byte>, suffix: seq<Byte>)
    ensures ReadUInt32BE(prefix + BE32(n) + suffix, |prefix|) == n
  {
    var s := prefix + BE32(n) + suffix;
    var b := BE32(n);
    assert s[|prefix|] == b[0] && s[|prefix| + 1] == b[1] && s[|prefix| + 2] == b[2] && s[|prefix| + 3] == b[3];
    var q0 := n / 0x100;
    var q1 := q0 / 0x100;
    assert n == q0 * 0x100 + b[3] as int;
    assert q0 == q1 * 0x100 + b[2] as int;
    assert q1 == (b[0] as int) * 0x100 + b[1] as int;
  }

  /** And the four octets are determined by the value they encode. */
  lemma BE32OfRead(s: seq<Byte>, off: nat)
    requires off + 4 <= |s|
    ensures BE32(ReadUInt32BE(s, off)) == s[off..off + 4]
  {
    var u := ReadUInt32BE(s, off);
    var q1 := (s[off] as int) * 0x100 + s[off + 1] as int;
    var q0 := q1 * 0x100 + s[off + 2] as int;
    assert u == q0 * 0x100 + s[off + 3] as int;
    assert u / 0x100 == q0 && u % 0x100 == s[off + 3];
    assert q0 / 0x100 == q1 && q0 % 0x100 == s[off + 2];
    assert q1 / 0x100 == s[off] && q1 % 0x100 == s[off + 1];
  }
}
