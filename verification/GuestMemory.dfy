/** Linear memory as the host sees it: little-endian stores into a byte sequence. */
module GuestMemory {
  type byte = x: int | 0 <= x < 0x100
  type u32 = x: int | 0 <= x < 0x1_0000_0000
  type u64 = x: int | 0 <= x < 0x1_0000_0000_0000_0000

  /** The `width` low-order bytes of n, least significant first. */
  function LittleEndian(n: nat, width: nat): (bs: seq<byte>)
    ensures |bs| == width
  {
    if width == 0 then [] else [n % 0x100] + LittleEndian(n / 0x100, width - 1)
  }

  function FromLittleEndian(bs: seq<byte>): (n: nat) {
    if |bs| == 0 then 0 else bs[0] + 0x100 * FromLittleEndian(bs[1..])
  }

  function Pow256(k: nat): (p: nat)
    ensures p > 0
  {
    if k == 0 then 1 else 0x100 * Pow256(k - 1)
  }

  /** Reading back a little-endian store gives the number that was stored, for every width. */
  lemma {:induction false} LittleEndianRoundTrip(n: nat, width: nat)
    requires n < Pow256(width)
    ensures FromLittleEndian(LittleEndian(n, width)) == n
  {
    if width > 0 {
      LittleEndianRoundTrip(n / 0x100, width - 1);
      assert LittleEndian(n, width)[1..] == LittleEndian(n / 0x100, width - 1);
    }
  }

  function Zeros(n: nat): (z: seq<byte>)
    ensures |z| == n
  {
    seq(n, _ => 0)
  }

  /** A store of bs at offset at; a store that does not fit throws in the host and changes nothing. */
  function Store(mem: seq<byte>, at: nat, bs: seq<byte>): (r: seq<byte>)
    ensures |r| == |mem|
  {
    if at + |bs| <= |mem| then mem[..at] + bs + mem[at + |bs|..] else mem
  }

  /** A store that fits changes its own bytes and no others. */
  lemma StoreEffect(mem: seq<byte>, at: nat, bs: seq<byte>, k: nat)
    requires at + |bs| <= |mem| && k < |mem|
    ensures Store(mem, at, bs)[k] == if at <= k < at + |bs| then bs[k - at] else mem[k]
  {
  }
}
