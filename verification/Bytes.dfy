/** Bytes and the big-endian integers of the SPDY wire format (crates/cri/src/spdy.rs). */
module Bytes {

  type byte = n: nat | n < 0x100
  type bytes = seq<byte>
  type u32 = n: nat | n < 0x1_0000_0000

  datatype Option<+T> = None | Some(value: T)
  datatype Result<+T> = Ok(value: T) | Err

  function ReadU32(b: bytes): (v: u32)
    requires |b| >= 4
    ensures v < 0x8000_0000 <==> b[0] < 0x80
  {
    ReadU24(b) * 0x100 + b[3]
  }

  function ReadU24(b: bytes): (v: nat)
    requires |b| >= 3
    ensures v < 0x100_0000
    ensures v < 0x80_0000 <==> b[0] < 0x80
  {
    var hi: nat := b[0];
    (hi * 0x100 + b[1]) * 0x100 + b[2]
  }

  /** Four big-endian bytes of `v as u32`: the cast drops everything above 2^32. */
  function U32(v: nat): (b: bytes)
    ensures |b| == 4 && (ReadU32(b) == v <==> v < 0x1_0000_0000)
  {
    U24(v / 0x100) + [v % 0x100]
  }

  /** Three big-endian bytes of `v`: everything above 2^24 is dropped. */
  function U24(v: nat): (b: bytes)
    ensures |b| == 3 && (ReadU24(b) == v <==> v < 0x100_0000)
  {
    var mid := v / 0x100;
    var hi := mid / 0x100;
    [hi % 0x100, mid % 0x100, v % 0x100]
  }

  /** The front of a buffer that starts with a written integer reads as that integer. */
  lemma ReadFront(v: nat, rest: bytes)
    ensures (U32(v) + rest)[..4] == U32(v) && (U32(v) + rest)[4..] == rest
    ensures ReadU32(U32(v) + rest) == ReadU32(U32(v))
    ensures ReadU24(U24(v) + rest) == ReadU24(U24(v))
  {
    assert forall i | 0 <= i < 4 :: (U32(v) + rest)[i] == U32(v)[i];
    assert forall i | 0 <= i < 3 :: (U24(v) + rest)[i] == U24(v)[i];
  }
}
