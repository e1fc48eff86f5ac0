/** Numbers as bytes, lowest byte first, as the property streams of src/fileloader.h hold them. */
module Bytes {
  import opened Options
  import opened Words

  type uint16 = n: nat | n < 0x1_0000
  type int32 = n: int | -0x8000_0000 <= n < 0x8000_0000
  type int8 = n: int | -0x80 <= n < 0x80

  /** The bits of a signed number, read as an unsigned one. */
  function Bits(n: int32): uint32 {
    if n < 0 then n + 0x1_0000_0000 else n
  }

  function Signed(n: uint32): int32 {
    if n < 0x8000_0000 then n else n - 0x1_0000_0000
  }

  /** The lowest eight bits, as a signed number. */
  function Signed8(n: uint32): int8 {
    var low := n % 0x100;
    if low < 0x80 then low else low - 0x100
  }

  /** Addition of `int32_t`, wrapping around. */
  function Add32(a: int32, b: int32): int32 {
    var s := a as int + b;
    if s < -0x8000_0000 then s + 0x1_0000_0000
    else if s >= 0x8000_0000 then s - 0x1_0000_0000
    else s
  }

  /** Four bytes, lowest first. */
  function Le32(n: uint32): seq<byte> {
    var q1 := n / 0x100;
    var q2 := q1 / 0x100;
    [n % 0x100, q1 % 0x100, q2 % 0x100, q2 / 0x100]
  }

  function FromLe32(b: seq<byte>): uint32
    requires |b| == 4
  {
    b[0] as int + 0x100 * (b[1] as int + 0x100 * (b[2] as int + 0x100 * (b[3] as int)))
  }

  lemma LeRoundTrip(n: uint32)
    ensures FromLe32(Le32(n)) == n
  {
    var q1 := n / 0x100;
    var q2 := q1 / 0x100;
    assert q2 == q2 % 0x100 + 0x100 * (q2 / 0x100);
    assert q1 == q1 % 0x100 + 0x100 * q2;
  }

  function Le16(n: uint16): seq<byte> {
    [n % 0x100, n / 0x100]
  }

  function FromLe16(b: seq<byte>): uint16
    requires |b| == 2
  {
    b[0] as int + 0x100 * (b[1] as int)
  }

  lemma Le16RoundTrip(n: uint16)
    ensures |Le16(n)| == 2 && FromLe16(Le16(n)) == n
  {
  }

  function LeInt(n: int32): seq<byte> {
    Le32(Bits(n))
  }

  function Flag(b: bool): byte {
    if b then 1 else 0
  }

  lemma Le32Size()
    ensures forall n :: |Le32(n)| == 4
  {
  }

  lemma IntRoundTrip(n: int32)
    ensures |LeInt(n)| == 4 && FromLe32(LeInt(n)) == Bits(n) && Signed(FromLe32(LeInt(n))) == n
  {
    hide FromLe32;
    LeRoundTrip(Bits(n));
  }

  /** A value of `n` bytes off the front of the stream; too short a stream stays as it is. */
  function Take(b: seq<byte>, n: nat): (r: Option<(seq<byte>, seq<byte>)>)
    ensures r.Some? ==> |r.value.0| == n && r.value.0 + r.value.1 == b
  {
    if |b| < n then None else Some((b[..n], b[n..]))
  }

  const MAX_STRING: nat := 0xFFFF

  /** A string and its length; one that is too long is written as the empty one (`writeString`). */
  function StringBytes(s: seq<byte>): seq<byte> {
    if |s| > MAX_STRING then Le16(0) else Le16(|s|) + s
  }

  /** `readString`. */
  function TakeString(b: seq<byte>): Option<(seq<byte>, seq<byte>)> {
    match Take(b, 2)
    case None => None
    case Some(length) => Take(length.1, FromLe16(length.0))
  }

  /** A string comes back, unless it is too long. */
  lemma StringRoundTrip(s: seq<byte>, rest: seq<byte>)
    ensures TakeString(StringBytes(s) + rest) == Some((if |s| > MAX_STRING then [] else s, rest))
  {
    var kept := if |s| > MAX_STRING then [] else s;
    Le16RoundTrip(|kept|);
    assert StringBytes(s) == Le16(|kept|) + kept;
    var b := StringBytes(s) + rest;
    assert b[..2] == Le16(|kept|) && b[2..] == kept + rest;
    assert (kept + rest)[..|kept|] == kept && (kept + rest)[|kept|..] == rest;
  }
}
