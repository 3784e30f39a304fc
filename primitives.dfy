/** The primitive codecs of the scenario format: reads of raw bytes at a file
    position, little-endian unsigned integers of 1, 2 or 4 bytes, the
    length-prefixed strings of `get_string`, and `struct.unpack` of packed
    little-endian u32 values. Every reader takes the data and a position and
    returns the decoded value with the position just after it. */
module Primitives {
  import opened LittleEndian
  import opened Results

  function Min(a: nat, b: nat): nat {
    if a <= b then a else b
  }

  /** What `file.read(k)` returns with the file position at `pos`: the next
      `k` bytes, fewer near the end of the data, none at or past its end
      (Python allows seeking past the end). */
  function Chunk(data: seq<uint8>, pos: nat, k: nat): (r: seq<uint8>)
    ensures |r| <= k
    ensures r != [] ==> pos + |r| <= |data|
    ensures forall i :: 0 <= i < |r| ==> pos + i < |data| && r[i] == data[pos + i]
    ensures |r| < k ==> pos + |r| >= |data|
  {
    if pos >= |data| then [] else data[pos .. pos + Min(k, |data| - pos)]
  }

  /** Exactly `k` bytes at `pos`, or `ShortRead` when fewer remain. */
  function BytesAt(data: seq<uint8>, pos: nat, k: nat): (r: Result<(seq<uint8>, nat)>)
    ensures r.Ok? <==> pos + k <= |data|
    ensures r.Ok? ==> r.value.0 == Chunk(data, pos, k) && r.value.1 == pos + k
    ensures r.Err? ==> r.error == ShortRead(pos)
  {
    if pos + k <= |data| then Ok((data[pos .. pos + k], pos + k)) else Err(ShortRead(pos))
  }

  /** An unsigned little-endian integer of `width` bytes at `pos`
      (`int.from_bytes(file.read(width), 'little')` on a full read). */
  function UIntAt(data: seq<uint8>, pos: nat, width: nat): (r: Result<(nat, nat)>)
    ensures r.Ok? <==> pos + width <= |data|
    ensures r.Ok? ==> r.value.0 < Pow256(width) && r.value.1 == pos + width
  {
    var bytes :- BytesAt(data, pos, width);
    Ok((LeUInt(bytes.0), bytes.1))
  }

  /** The data holds `bytes` at position `pos`. */
  predicate Holds(data: seq<uint8>, pos: nat, bytes: seq<uint8>) {
    pos + |bytes| <= |data| && data[pos .. pos + |bytes|] == bytes
  }

  lemma HoldsSplit(data: seq<uint8>, pos: nat, a: seq<uint8>, b: seq<uint8>)
    requires Holds(data, pos, a + b)
    ensures Holds(data, pos, a) && Holds(data, pos + |a|, b)
  {
    assert data[pos .. pos + |a|] == (a + b)[..|a|];
    assert data[pos + |a| .. pos + |a| + |b|] == (a + b)[|a|..];
  }

  /** An integer written with `LeBytes` is read back by `UIntAt`. */
  lemma UIntAtLeBytes(data: seq<uint8>, pos: nat, v: nat, width: nat)
    requires v < Pow256(width)
    requires Holds(data, pos, LeBytes(v, width))
    ensures UIntAt(data, pos, width) == Ok((v, pos + width))
  {
    LeUIntOfLeBytes(v, width);
  }

  /** Every character of `s` has a code point below 256, so it is one byte
      in ISO/IEC 8859-1 (Latin-1). */
  predicate IsLatin1(s: string) {
    forall i :: 0 <= i < |s| ==> s[i] as int < 0x100
  }

  /** Each byte as the character with the same code point (Python's `chr`). */
  function Latin1(bytes: seq<uint8>): (s: string)
    ensures |s| == |bytes|
  {
    seq(|bytes|, i requires 0 <= i < |bytes| => bytes[i] as int as char)
  }

  /** Each character as the byte holding its code point. */
  function Latin1Bytes(s: string): (bytes: seq<uint8>)
    requires IsLatin1(s)
    ensures |bytes| == |s|
  {
    seq(|s|, i requires 0 <= i < |s| => s[i] as int as uint8)
  }

  lemma Latin1OfLatin1Bytes(s: string)
    requires IsLatin1(s)
    ensures Latin1(Latin1Bytes(s)) == s
  {
  }

  lemma Latin1BytesOfLatin1(bytes: seq<uint8>)
    ensures IsLatin1(Latin1(bytes)) && Latin1Bytes(Latin1(bytes)) == bytes
  {
  }

  /** Python's `s[:-1]`: all but the last element, and nothing of nothing. */
  function DropLast<T>(s: seq<T>): (r: seq<T>)
    ensures |r| == if s == [] then 0 else |s| - 1
    ensures r <= s
  {
    if s == [] then [] else s[..|s| - 1]
  }

  /** `get_string`: a length byte `n`, then `n` bytes of which all but the
      last are the characters; the last (meant to be a NUL terminator) is
      dropped unchecked. `n == 0` gives the empty string. */
  function StringAt(data: seq<uint8>, pos: nat): (r: Result<(string, nat)>)
    ensures r.Ok? <==> pos < |data| && pos + 1 + data[pos] as nat <= |data|
    ensures r.Err? ==> r.error == ShortRead(pos)
    ensures r.Ok? ==> r.value.1 == pos + 1 + data[pos] as nat
    ensures r.Ok? ==> |r.value.0| == if data[pos] == 0 then 0 else data[pos] as nat - 1
  {
    if pos >= |data| then Err(ShortRead(pos))
    else
      var n := data[pos] as nat;
      if pos + 1 + n > |data| then Err(ShortRead(pos))
      else Ok((DropLast(Latin1(data[pos + 1 .. pos + 1 + n])), pos + 1 + n))
  }

  /** Character `i` of a decoded string has the code point of the byte
      `1 + i` after the string's position. */
  lemma StringAtChars(data: seq<uint8>, pos: nat, s: string, next: nat, i: nat)
    requires StringAt(data, pos) == Ok((s, next)) && i < |s|
    ensures s[i] as int == data[pos + 1 + i] as int
  {
  }

  /** The strings the format can hold: Latin-1, and short enough that the
      length byte `|s| + 1` fits in one byte. */
  predicate Encodable(s: string) {
    IsLatin1(s) && |s| <= 0xFE
  }

  /** The bytes of `s` as a stored string: length byte, characters, NUL. */
  function EncodeString(s: string): (bytes: seq<uint8>)
    requires Encodable(s)
    ensures |bytes| == |s| + 2
  {
    [(|s| + 1) as uint8] + Latin1Bytes(s) + [0]
  }

  /** An encoded string is decoded back to itself, consuming all of its bytes. */
  lemma StringAtEncodeString(data: seq<uint8>, pos: nat, s: string)
    requires Encodable(s)
    requires Holds(data, pos, EncodeString(s))
    ensures StringAt(data, pos) == Ok((s, pos + |s| + 2))
  {
    var enc := EncodeString(s);
    var body := data[pos + 1 .. pos + |s| + 2];
    assert data[pos] == (|s| + 1) as uint8 by {
      assert data[pos] == data[pos .. pos + |enc|][0];
    }
    assert body == Latin1Bytes(s) + [0] by {
      assert body == data[pos .. pos + |enc|][1..];
    }
    assert DropLast(Latin1(body)) == s by {
      Latin1OfLatin1Bytes(s);
      forall i | 0 <= i < |s|
        ensures DropLast(Latin1(body))[i] == s[i]
      {
        assert body[i] == Latin1Bytes(s)[i];
      }
    }
  }

  /** Conversely, a decoded string whose last byte is NUL was stored exactly
      as `EncodeString` writes it. */
  lemma EncodeStringOfStringAt(data: seq<uint8>, pos: nat, s: string, next: nat)
    requires StringAt(data, pos) == Ok((s, next))
    requires data[pos] != 0 && data[next - 1] == 0
    ensures Encodable(s) && EncodeString(s) == data[pos .. next]
  {
    var content := data[pos + 1 .. next - 1];
    assert s == Latin1(content) by {
      assert data[pos + 1 .. next] == content + [data[next - 1]];
    }
    Latin1BytesOfLatin1(content);
    assert data[pos .. next] == [data[pos]] + content + [data[next - 1]];
  }

  /** The byte where a terminator belongs is never looked at. */
  lemma StringAtIgnoresLastByte(data: seq<uint8>, pos: nat, s: string, next: nat, b: uint8)
    requires StringAt(data, pos) == Ok((s, next)) && data[pos] != 0
    ensures StringAt(data[next - 1 := b], pos) == Ok((s, next))
  {
    var data' := data[next - 1 := b];
    assert data'[pos + 1 .. next - 1] == data[pos + 1 .. next - 1];
    assert DropLast(Latin1(data'[pos + 1 .. next])) == Latin1(data[pos + 1 .. next - 1]);
    assert DropLast(Latin1(data[pos + 1 .. next])) == Latin1(data[pos + 1 .. next - 1]);
  }

  /** Cutting the data anywhere before the end of a string turns its decode
      into `ShortRead` at the string's position, never a shorter string. */
  lemma StringAtTruncated(data: seq<uint8>, pos: nat, s: string, next: nat, k: nat)
    requires StringAt(data, pos) == Ok((s, next)) && k < next
    ensures StringAt(data[..k], pos) == Err(ShortRead(pos))
  {
  }

  /** `struct.unpack('<' + 'I' * count, bytes)` on exactly `4 * count`
      bytes: `count` little-endian u32 values, in order. */
  function UnpackU32s(bytes: seq<uint8>, count: nat): (vs: seq<nat>)
    requires |bytes| == 4 * count
    ensures |vs| == count
    ensures forall i :: 0 <= i < count ==> vs[i] < Pow256(4)
  {
    seq(count, i requires 0 <= i < count => LeUInt(bytes[4 * i .. 4 * i + 4]))
  }

  /** All values fit in a u32. */
  predicate AllU32(vs: seq<nat>) {
    forall i :: 0 <= i < |vs| ==> vs[i] < Pow256(4)
  }

  /** `struct.pack('<' + 'I' * len(vs), *vs)`. */
  function PackU32s(vs: seq<nat>): (bytes: seq<uint8>)
    requires AllU32(vs)
    ensures |bytes| == 4 * |vs|
  {
    if vs == [] then [] else LeBytes(vs[0], 4) + PackU32s(vs[1..])
  }

  /** Value `i` is packed into bytes `4i .. 4i + 4`. */
  lemma {:induction false} PackU32sAt(vs: seq<nat>, i: nat)
    requires AllU32(vs) && i < |vs|
    ensures PackU32s(vs)[4 * i .. 4 * i + 4] == LeBytes(vs[i], 4)
  {
    var packed := PackU32s(vs);
    assert packed == LeBytes(vs[0], 4) + PackU32s(vs[1..]);
    if i > 0 {
      PackU32sAt(vs[1..], i - 1);
      assert packed[4 * i .. 4 * i + 4] == PackU32s(vs[1..])[4 * (i - 1) .. 4 * (i - 1) + 4];
    }
  }

  /** Unpacking packed values gives the values back. */
  lemma UnpackPackU32s(vs: seq<nat>)
    requires AllU32(vs)
    ensures UnpackU32s(PackU32s(vs), |vs|) == vs
  {
    var unpacked := UnpackU32s(PackU32s(vs), |vs|);
    forall i | 0 <= i < |vs|
      ensures unpacked[i] == vs[i]
    {
      PackU32sAt(vs, i);
      LeUIntOfLeBytes(vs[i], 4);
    }
  }

  /** Packing unpacked values gives the bytes back. */
  lemma {:induction false} PackUnpackU32s(bytes: seq<uint8>, count: nat)
    requires |bytes| == 4 * count
    ensures PackU32s(UnpackU32s(bytes, count)) == bytes
  {
    var vs := UnpackU32s(bytes, count);
    if count > 0 {
      var tail := UnpackU32s(bytes[4..], count - 1);
      forall j | 0 <= j < count - 1
        ensures vs[1..][j] == tail[j]
      {
        assert bytes[4..][4 * j .. 4 * j + 4] == bytes[4 * (j + 1) .. 4 * (j + 1) + 4];
      }
      assert vs[1..] == tail;
      PackUnpackU32s(bytes[4..], count - 1);
      LeBytesOfLeUInt(bytes[..4]);
      assert bytes == bytes[..4] + bytes[4..];
    }
  }
}
