/** Bytes and 32-bit words. */
module Words {

  const TWO32: nat := 0x1_0000_0000

  type byte = n: nat | n < 0x100
  type uint32 = n: nat | n < TWO32

  /** What a 32-bit word keeps of a number. */
  function Wrap(n: int): uint32 {
    if 0 <= n < TWO32 then n else n % TWO32
  }
}
