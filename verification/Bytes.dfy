/** Fixed-width numbers of the C source and the H.265 NAL unit header fields the code looks at. */
module Bytes {
  type byte = x: int | 0 <= x < 0x100
  type u16 = x: int | 0 <= x < 0x1_0000
  type u32 = x: int | 0 <= x < 0x1_0000_0000
  type u64 = x: int | 0 <= x < 0x1_0000_0000_0000_0000

  datatype Option<+T> = None | Some(value: T)

  /** The six type bits of the first NAL unit header byte: `(b >> 1) & 0x3f`. */
  function TypeBits(b: byte): nat {
    (b / 2) % 64
  }

  /** `h265_nalu_type`: -1 for anything shorter than the two-byte header. */
  function NalType(nalu: seq<byte>): int {
    if |nalu| < 2 then -1 else TypeBits(nalu[0])
  }

  function Zeros(n: nat): (z: seq<byte>)
    ensures |z| == n && forall i :: 0 <= i < n ==> z[i] == 0
  {
    seq(n, _ => 0)
  }

  const VPS := 32
  const SPS := 33
  const PPS := 34

  predicate IsParameterSet(t: int) {
    t == VPS || t == SPS || t == PPS
  }

  predicate IsIdr(t: int) {
    t == 19 || t == 20
  }

  predicate IsIrap(t: int) {
    16 <= t <= 21
  }
}
