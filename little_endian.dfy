/** Unsigned little-endian integers over bytes, as Python's
    `int.from_bytes(bytes, byteorder='little', signed=False)` reads them,
    and the encoding they invert. */
module LittleEndian {

  /** One byte of the scenario file. */
  newtype uint8 = x: int | 0 <= x < 0x100

  /** 256 to the power `k`: the number of values `k` bytes can hold. */
  function Pow256(k: nat): (r: nat)
    ensures r >= 1
    ensures k >= 1 ==> r >= 0x100
  {
    if k == 0 then 1 else 0x100 * Pow256(k - 1)
  }

  /** The value of `bytes` read least significant byte first. */
  function LeUInt(bytes: seq<uint8>): (v: nat)
    ensures v < Pow256(|bytes|)
  {
    if bytes == [] then 0
    else
      var rest := LeUInt(bytes[1..]);
      assert rest <= Pow256(|bytes| - 1) - 1;
      bytes[0] as nat + 0x100 * rest
  }

  /** The `width` bytes that encode `v`, least significant byte first. */
  function LeBytes(v: nat, width: nat): (bytes: seq<uint8>)
    requires v < Pow256(width)
    ensures |bytes| == width
  {
    if width == 0 then []
    else [(v % 0x100) as uint8] + LeBytes(v / 0x100, width - 1)
  }

  /** Decoding the encoding of a value that fits gives the value back. */
  lemma {:induction false} LeUIntOfLeBytes(v: nat, width: nat)
    requires v < Pow256(width)
    ensures LeUInt(LeBytes(v, width)) == v
  {
    if width > 0 {
      LeUIntOfLeBytes(v / 0x100, width - 1);
      assert LeBytes(v, width)[1..] == LeBytes(v / 0x100, width - 1);
    }
  }

  /** Encoding the value of some bytes at their own width gives the bytes back. */
  lemma {:induction false} LeBytesOfLeUInt(bytes: seq<uint8>)
    ensures LeBytes(LeUInt(bytes), |bytes|) == bytes
  {
    if bytes != [] {
      var rest := LeUInt(bytes[1..]);
      var v := LeUInt(bytes);
      assert v == bytes[0] as nat + 0x100 * rest;
      assert v % 0x100 == bytes[0] as nat;
      assert v / 0x100 == rest;
      LeBytesOfLeUInt(bytes[1..]);
      assert bytes == [bytes[0]] + bytes[1..];
    }
  }

  /** Two byte strings of the same width encode the same value only if they are equal. */
  lemma LeUIntInjective(a: seq<uint8>, b: seq<uint8>)
    requires |a| == |b| && LeUInt(a) == LeUInt(b)
    ensures a == b
  {
    LeBytesOfLeUInt(a);
    LeBytesOfLeUInt(b);
  }
}
