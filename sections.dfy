/** The sections of a scenario file: the 8-byte section header read by
    `get_section_header`, the record layouts of the six metadata tables, and
    the tables themselves (`element_count` records stored back to back after
    the section header). */
module Sections {
  import opened LittleEndian
  import opened Results
  import opened Primitives

  /** `get_section_header(file, offset)`: at the absolute `offset`, two
      little-endian u32 values `(byte_size, element_count)`; the count is
      the result and `byte_size` bounds nothing. */
  function SectionCountAt(data: seq<uint8>, offset: nat): (r: Result<nat>)
    ensures r.Ok? <==> offset + 8 <= |data|
    ensures r.Err? ==> r.error == SectionHeaderTooShort(offset)
    ensures r.Ok? ==> r.value < Pow256(4)
  {
    if offset + 8 <= |data| then Ok(UnpackU32s(data[offset .. offset + 8], 2)[1])
    else Err(SectionHeaderTooShort(offset))
  }

  /** A section header written as `(byte_size, element_count)` is read back
      as `element_count`. */
  lemma SectionCountAtPacked(data: seq<uint8>, offset: nat, byteSize: nat, count: nat)
    requires byteSize < Pow256(4) && count < Pow256(4)
    requires Holds(data, offset, PackU32s([byteSize, count]))
    ensures SectionCountAt(data, offset) == Ok(count)
  {
    UnpackPackU32s([byteSize, count]);
  }

  /** Whatever `byte_size` says, the count read is the same. */
  lemma SectionCountIgnoresByteSize(data: seq<uint8>, offset: nat, byteSize: seq<uint8>)
    requires |byteSize| == 4 && offset + 8 <= |data|
    ensures SectionCountAt(data[..offset] + byteSize + data[offset + 4..], offset)
         == SectionCountAt(data, offset)
  {
    var data' := data[..offset] + byteSize + data[offset + 4..];
    var header, header' := data[offset .. offset + 8], data'[offset .. offset + 8];
    assert header'[4..8] == header[4..8] by {
      forall j | 4 <= j < 8
        ensures header'[j] == header[j]
      {
        assert data'[offset + j] == data[offset + j];
      }
    }
    assert UnpackU32s(header', 2)[1] == LeUInt(header'[4..8]);
  }

  /** A Backgrounds record (section 40); the output names its fields `item1`, `item2`. */
  datatype Background = Background(name: string, flag: nat)

  /** A Bustup record (section 44); `item1`, `item2`, `item3`. */
  datatype Bustup = Bustup(name: string, secondaryName: string, flag: nat)

  /** A Movies record (section 56); `item1`, `item2`. */
  datatype Movie = Movie(name: string, value: nat)

  /** A Voice record (section 60); `item1`, `item2`. */
  datatype Voice = Voice(name: string, value: nat)

  /** A string, then a u16. */
  function BackgroundAt(data: seq<uint8>, pos: nat): (r: Result<(Background, nat)>)
    ensures r.Ok? ==> StringAt(data, pos).Ok?
    ensures r.Ok? ==> r.value.1 == StringAt(data, pos).value.1 + 2 && r.value.0.flag < Pow256(2)
    ensures r.Ok? <==> StringAt(data, pos).Ok? && StringAt(data, pos).value.1 + 2 <= |data|
    ensures r.Ok? ==> r.value.0.name == StringAt(data, pos).value.0
    ensures r.Ok? ==> UIntAt(data, StringAt(data, pos).value.1, 2) == Ok((r.value.0.flag, r.value.1))
    ensures r.Err? ==> r.error == ShortRead(if StringAt(data, pos).Err? then pos else StringAt(data, pos).value.1)
  {
    var name :- StringAt(data, pos);
    var flag :- UIntAt(data, name.1, 2);
    Ok((Background(name.0, flag.0), flag.1))
  }

  /** A string, a second string, then a u16. */
  function BustupAt(data: seq<uint8>, pos: nat): (r: Result<(Bustup, nat)>)
    ensures r.Ok? ==> StringAt(data, pos).Ok? && StringAt(data, StringAt(data, pos).value.1).Ok?
    ensures r.Ok? ==> r.value.1 == StringAt(data, StringAt(data, pos).value.1).value.1 + 2
    ensures r.Ok? ==> r.value.0.flag < Pow256(2)
    ensures r.Ok? <==> StringAt(data, pos).Ok? && BackgroundAt(data, StringAt(data, pos).value.1).Ok?
    ensures r.Ok? ==> r.value.0.name == StringAt(data, pos).value.0
    ensures r.Ok? ==> BackgroundAt(data, StringAt(data, pos).value.1)
                      == Ok((Background(r.value.0.secondaryName, r.value.0.flag), r.value.1))
    ensures r.Err? ==> r.error == if StringAt(data, pos).Err? then ShortRead(pos)
                                  else BackgroundAt(data, StringAt(data, pos).value.1).error
  {
    var name :- StringAt(data, pos);
    var secondaryName :- StringAt(data, name.1);
    var flag :- UIntAt(data, secondaryName.1, 2);
    Ok((Bustup(name.0, secondaryName.0, flag.0), flag.1))
  }

  /** A string, then a u32. */
  function MovieAt(data: seq<uint8>, pos: nat): (r: Result<(Movie, nat)>)
    ensures r.Ok? ==> StringAt(data, pos).Ok?
    ensures r.Ok? ==> r.value.1 == StringAt(data, pos).value.1 + 4 && r.value.0.value < Pow256(4)
    ensures r.Ok? <==> StringAt(data, pos).Ok? && StringAt(data, pos).value.1 + 4 <= |data|
    ensures r.Ok? ==> r.value.0.name == StringAt(data, pos).value.0
    ensures r.Ok? ==> UIntAt(data, StringAt(data, pos).value.1, 4) == Ok((r.value.0.value, r.value.1))
    ensures r.Err? ==> r.error == ShortRead(if StringAt(data, pos).Err? then pos else StringAt(data, pos).value.1)
  {
    var name :- StringAt(data, pos);
    var value :- UIntAt(data, name.1, 4);
    Ok((Movie(name.0, value.0), value.1))
  }

  /** A string, one byte that is read and discarded, then a u8. */
  function VoiceAt(data: seq<uint8>, pos: nat): (r: Result<(Voice, nat)>)
    ensures r.Ok? ==> StringAt(data, pos).Ok?
    ensures r.Ok? ==> r.value.1 == StringAt(data, pos).value.1 + 2 && r.value.0.value < 0x100
    ensures r.Ok? <==> StringAt(data, pos).Ok? && StringAt(data, pos).value.1 + 2 <= |data|
    ensures r.Ok? ==> r.value.0.name == StringAt(data, pos).value.0
    ensures r.Ok? ==> UIntAt(data, StringAt(data, pos).value.1 + 1, 1) == Ok((r.value.0.value, r.value.1))
    ensures r.Err? ==> r.error == ShortRead(if StringAt(data, pos).Err? then pos
                                            else if StringAt(data, pos).value.1 < |data| then StringAt(data, pos).value.1 + 1
                                            else StringAt(data, pos).value.1)
  {
    var name :- StringAt(data, pos);
    var reserved :- BytesAt(data, name.1, 1);
    var value :- UIntAt(data, reserved.1, 1);
    Ok((Voice(name.0, value.0), value.1))
  }

  predicate ValidBackground(b: Background) {
    Encodable(b.name) && b.flag < Pow256(2)
  }

  function EncodeBackground(b: Background): (bytes: seq<uint8>)
    requires ValidBackground(b)
    ensures |bytes| == |b.name| + 4
  {
    EncodeString(b.name) + LeBytes(b.flag, 2)
  }

  lemma BackgroundAtEncode(data: seq<uint8>, pos: nat, b: Background)
    requires ValidBackground(b) && Holds(data, pos, EncodeBackground(b))
    ensures BackgroundAt(data, pos) == Ok((b, pos + |EncodeBackground(b)|))
  {
    HoldsSplit(data, pos, EncodeString(b.name), LeBytes(b.flag, 2));
    StringAtEncodeString(data, pos, b.name);
    UIntAtLeBytes(data, pos + |b.name| + 2, b.flag, 2);
  }

  /** Conversely, a decoded Backgrounds record whose string has a nonzero
      length byte and a NUL last byte was stored exactly as
      `EncodeBackground` writes it. */
  lemma EncodeBackgroundOfBackgroundAt(data: seq<uint8>, pos: nat, b: Background, next: nat)
    requires BackgroundAt(data, pos) == Ok((b, next))
    requires data[pos] != 0 && data[pos + |b.name| + 1] == 0
    ensures ValidBackground(b) && EncodeBackground(b) == data[pos .. next]
  {
    var p1 := pos + |b.name| + 2;
    EncodeStringOfStringAt(data, pos, b.name, p1);
    LeBytesOfLeUInt(data[p1 .. next]);
    assert data[pos .. next] == data[pos .. p1] + data[p1 .. next];
  }

  predicate ValidBustup(b: Bustup) {
    Encodable(b.name) && Encodable(b.secondaryName) && b.flag < Pow256(2)
  }

  /** The first string, then the second string and the flag stored as a
      Backgrounds record would store them. */
  function EncodeBustup(b: Bustup): (bytes: seq<uint8>)
    requires ValidBustup(b)
    ensures |bytes| == |b.name| + |b.secondaryName| + 6
  {
    EncodeString(b.name) + EncodeBackground(Background(b.secondaryName, b.flag))
  }

  /** After its first string, a Bustup record is laid out as a Backgrounds
      record holding the second string and the flag. */
  lemma BustupAtFields(data: seq<uint8>, pos: nat, b: Bustup, p1: nat, p2: nat)
    requires StringAt(data, pos) == Ok((b.name, p1))
    requires BackgroundAt(data, p1) == Ok((Background(b.secondaryName, b.flag), p2))
    ensures BustupAt(data, pos) == Ok((b, p2))
  {
  }

  /** A stored Bustup record starts with its first string. */
  lemma BustupNameAt(data: seq<uint8>, pos: nat, b: Bustup)
    requires ValidBustup(b) && Holds(data, pos, EncodeBustup(b))
    ensures StringAt(data, pos) == Ok((b.name, pos + |b.name| + 2))
  {
    var rest := Background(b.secondaryName, b.flag);
    HoldsSplit(data, pos, EncodeString(b.name), EncodeBackground(rest));
    StringAtEncodeString(data, pos, b.name);
  }

  /** After its first string, a stored Bustup record holds a stored
      Backgrounds record made of its second string and its flag. */
  lemma BustupTailAt(data: seq<uint8>, pos: nat, b: Bustup)
    requires ValidBustup(b) && Holds(data, pos, EncodeBustup(b))
    ensures BackgroundAt(data, pos + |b.name| + 2)
         == Ok((Background(b.secondaryName, b.flag), pos + |EncodeBustup(b)|))
  {
    var rest := Background(b.secondaryName, b.flag);
    HoldsSplit(data, pos, EncodeString(b.name), EncodeBackground(rest));
    BackgroundAtEncode(data, pos + |b.name| + 2, rest);
  }

  lemma BustupAtEncode(data: seq<uint8>, pos: nat, b: Bustup)
    requires ValidBustup(b) && Holds(data, pos, EncodeBustup(b))
    ensures BustupAt(data, pos) == Ok((b, pos + |EncodeBustup(b)|))
  {
    BustupNameAt(data, pos, b);
    BustupTailAt(data, pos, b);
    BustupAtFields(data, pos, b, pos + |b.name| + 2, pos + |EncodeBustup(b)|);
  }

  /** A first string followed by a Backgrounds-shaped tail, both with
      nonzero length bytes and NUL last bytes, are the bytes `EncodeBustup`
      writes. */
  lemma EncodeBustupOfFields(data: seq<uint8>, pos: nat, b: Bustup, p1: nat, next: nat)
    requires StringAt(data, pos) == Ok((b.name, p1))
    requires BackgroundAt(data, p1) == Ok((Background(b.secondaryName, b.flag), next))
    requires data[pos] != 0 && data[p1 - 1] == 0 && data[p1] != 0 && data[next - 3] == 0
    ensures ValidBustup(b) && EncodeBustup(b) == data[pos .. next]
  {
    EncodeStringOfStringAt(data, pos, b.name, p1);
    EncodeBackgroundOfBackgroundAt(data, p1, Background(b.secondaryName, b.flag), next);
    assert data[pos .. next] == data[pos .. p1] + data[p1 .. next];
  }

  /** Conversely, a decoded Bustup record whose two strings have nonzero
      length bytes and NUL last bytes was stored exactly as `EncodeBustup`
      writes it. */
  lemma EncodeBustupOfBustupAt(data: seq<uint8>, pos: nat, b: Bustup, next: nat)
    requires BustupAt(data, pos) == Ok((b, next))
    requires data[pos] != 0 && data[pos + |b.name| + 1] == 0
    requires data[pos + |b.name| + 2] != 0 && data[pos + |b.name| + |b.secondaryName| + 3] == 0
    ensures ValidBustup(b) && EncodeBustup(b) == data[pos .. next]
  {
    EncodeBustupOfFields(data, pos, b, pos + |b.name| + 2, next);
  }

  predicate ValidMovie(m: Movie) {
    Encodable(m.name) && m.value < Pow256(4)
  }

  function EncodeMovie(m: Movie): (bytes: seq<uint8>)
    requires ValidMovie(m)
    ensures |bytes| == |m.name| + 6
  {
    EncodeString(m.name) + LeBytes(m.value, 4)
  }

  lemma MovieAtEncode(data: seq<uint8>, pos: nat, m: Movie)
    requires ValidMovie(m) && Holds(data, pos, EncodeMovie(m))
    ensures MovieAt(data, pos) == Ok((m, pos + |EncodeMovie(m)|))
  {
    HoldsSplit(data, pos, EncodeString(m.name), LeBytes(m.value, 4));
    StringAtEncodeString(data, pos, m.name);
    UIntAtLeBytes(data, pos + |m.name| + 2, m.value, 4);
  }

  /** Conversely, a decoded Movies record whose string has a nonzero length
      byte and a NUL last byte was stored exactly as `EncodeMovie` writes it. */
  lemma EncodeMovieOfMovieAt(data: seq<uint8>, pos: nat, m: Movie, next: nat)
    requires MovieAt(data, pos) == Ok((m, next))
    requires data[pos] != 0 && data[pos + |m.name| + 1] == 0
    ensures ValidMovie(m) && EncodeMovie(m) == data[pos .. next]
  {
    var p1 := pos + |m.name| + 2;
    EncodeStringOfStringAt(data, pos, m.name, p1);
    LeBytesOfLeUInt(data[p1 .. next]);
    assert data[pos .. next] == data[pos .. p1] + data[p1 .. next];
  }

  predicate ValidVoice(v: Voice) {
    Encodable(v.name) && v.value < 0x100
  }

  /** A Voice record with `reserved` in its discarded byte. */
  function EncodeVoice(v: Voice, reserved: uint8): (bytes: seq<uint8>)
    requires ValidVoice(v)
    ensures |bytes| == |v.name| + 4
  {
    EncodeString(v.name) + [reserved, v.value as uint8]
  }

  /** An encoded Voice record reads back whatever its discarded byte holds. */
  lemma VoiceAtEncode(data: seq<uint8>, pos: nat, v: Voice, reserved: uint8)
    requires ValidVoice(v) && Holds(data, pos, EncodeVoice(v, reserved))
    ensures VoiceAt(data, pos) == Ok((v, pos + |EncodeVoice(v, reserved)|))
  {
    var name := EncodeString(v.name);
    HoldsSplit(data, pos, name, [reserved, v.value as uint8]);
    StringAtEncodeString(data, pos, v.name);
    assert data[pos + |name| + 1] == v.value as uint8;
    assert data[pos + |name| + 1 .. pos + |name| + 2] == [v.value as uint8];
  }

  /** Conversely, a decoded Voice record whose string has a nonzero length
      byte and a NUL last byte was stored exactly as `EncodeVoice` writes it,
      with the byte it skipped as the discarded byte. */
  lemma EncodeVoiceOfVoiceAt(data: seq<uint8>, pos: nat, v: Voice, next: nat)
    requires VoiceAt(data, pos) == Ok((v, next))
    requires data[pos] != 0 && data[pos + |v.name| + 1] == 0
    ensures ValidVoice(v) && EncodeVoice(v, data[next - 2]) == data[pos .. next]
  {
    var p1 := pos + |v.name| + 2;
    EncodeStringOfStringAt(data, pos, v.name, p1);
    assert data[p1 + 1 .. next] == [data[next - 1]];
    assert LeUInt([data[next - 1]]) == data[next - 1] as nat;
    assert data[pos .. next] == data[pos .. p1] + [data[p1], data[next - 1]];
  }

  /** `count` records read back to back from `pos` by `read`, in the order
      they are stored. */
  function RecordsAt<R>(data: seq<uint8>, pos: nat, count: nat,
                        read: (seq<uint8>, nat) -> Result<(R, nat)>): (r: Result<(seq<R>, nat)>)
    ensures r.Ok? ==> |r.value.0| == count
    decreases count
  {
    if count == 0 then Ok(([], pos))
    else
      var first :- read(data, pos);
      var rest :- RecordsAt(data, first.1, count - 1, read);
      Ok(([first.0] + rest.0, rest.1))
  }

  /** `xs` followed by the records of `r`, or the error of `r`. */
  function Prepend<R>(xs: seq<R>, r: Result<(seq<R>, nat)>): Result<(seq<R>, nat)> {
    match r
    case Ok(p) => Ok((xs + p.0, p.1))
    case Err(e) => Err(e)
  }

  lemma PrependNil<R>(r: Result<(seq<R>, nat)>)
    ensures Prepend([], r) == r
  {
    match r {
      case Err(_) =>
      case Ok(p) => assert [] + p.0 == p.0;
    }
  }

  lemma PrependDone<R>(xs: seq<R>, data: seq<uint8>, pos: nat,
                       read: (seq<uint8>, nat) -> Result<(R, nat)>)
    ensures Prepend(xs, RecordsAt(data, pos, 0, read)) == Ok((xs, pos))
  {
    assert xs + [] == xs;
  }

  /** One more record read after `xs`: the table so far grows by that
      record, or the read's error ends it. */
  lemma PrependStep<R>(xs: seq<R>, data: seq<uint8>, pos: nat, count: nat,
                       read: (seq<uint8>, nat) -> Result<(R, nat)>)
    requires count > 0
    ensures Prepend(xs, RecordsAt(data, pos, count, read))
         == match read(data, pos)
            case Ok(first) => Prepend(xs + [first.0], RecordsAt(data, first.1, count - 1, read))
            case Err(e) => Err(e)
  {
    match read(data, pos) {
      case Err(_) =>
      case Ok(first) =>
        match RecordsAt(data, first.1, count - 1, read) {
          case Err(_) =>
          case Ok(rest) => assert xs + ([first.0] + rest.0) == (xs + [first.0]) + rest.0;
        }
    }
  }

  /** Reading `m + n` records is reading `m`, then `n` more from where they end. */
  lemma {:induction false} RecordsAtSplit<R>(data: seq<uint8>, pos: nat, m: nat, n: nat,
                                             read: (seq<uint8>, nat) -> Result<(R, nat)>)
    ensures RecordsAt(data, pos, m + n, read)
         == match RecordsAt(data, pos, m, read)
            case Ok(p) => Prepend(p.0, RecordsAt(data, p.1, n, read))
            case Err(e) => Err(e)
    decreases m
  {
    if m == 0 {
      match RecordsAt(data, pos, n, read) {
        case Err(_) =>
        case Ok(q) => assert [] + q.0 == q.0;
      }
    } else {
      match read(data, pos) {
        case Err(_) =>
        case Ok(first) =>
          RecordsAtSplit(data, first.1, m - 1, n, read);
          match RecordsAt(data, first.1, m - 1, read) {
            case Err(_) =>
            case Ok(p) =>
              match RecordsAt(data, p.1, n, read) {
                case Err(_) =>
                case Ok(q) =>
                  assert [first.0] + (p.0 + q.0) == ([first.0] + p.0) + q.0;
              }
          }
      }
    }
  }

  /** Record `i` of a decoded table is the one `read` finds where the first
      `i` records end, and the next record starts where it ends. */
  lemma RecordsAtNth<R>(data: seq<uint8>, pos: nat, count: nat,
                        read: (seq<uint8>, nat) -> Result<(R, nat)>, i: nat)
    requires RecordsAt(data, pos, count, read).Ok? && i < count
    ensures RecordsAt(data, pos, i, read).Ok? && RecordsAt(data, pos, i + 1, read).Ok?
    ensures read(data, RecordsAt(data, pos, i, read).value.1)
         == Ok((RecordsAt(data, pos, count, read).value.0[i], RecordsAt(data, pos, i + 1, read).value.1))
  {
    RecordsAtSplit(data, pos, i, count - i, read);
    RecordsAtSplit(data, pos, i, 1, read);
    var before := RecordsAt(data, pos, i, read).value;
    assert RecordsAt(data, pos, count, read) == Prepend(before.0, RecordsAt(data, before.1, count - i, read));
  }

  /** A table: the section header at `offset`, then `element_count` records. */
  function TableAt<R>(data: seq<uint8>, offset: nat,
                      read: (seq<uint8>, nat) -> Result<(R, nat)>): (r: Result<(seq<R>, nat)>)
    ensures r.Ok? ==> SectionCountAt(data, offset).Ok? && |r.value.0| == SectionCountAt(data, offset).value
    ensures SectionCountAt(data, offset) == Ok(0) ==> r == Ok(([], offset + 8))
    ensures SectionCountAt(data, offset).Err? ==> r == Err(SectionHeaderTooShort(offset))
  {
    var count :- SectionCountAt(data, offset);
    RecordsAt(data, offset + 8, count, read)
  }

  /** The records of a table are stored back to back right after its
      8-byte section header: record `i` is what `read` finds where the first
      `i` records after `offset + 8` end, and record `i + 1` starts where it
      ends. */
  lemma TableAtNth<R>(data: seq<uint8>, offset: nat,
                      read: (seq<uint8>, nat) -> Result<(R, nat)>, i: nat)
    requires TableAt(data, offset, read).Ok? && i < |TableAt(data, offset, read).value.0|
    ensures TableAt(data, offset, read) == RecordsAt(data, offset + 8, |TableAt(data, offset, read).value.0|, read)
    ensures RecordsAt(data, offset + 8, i, read).Ok? && RecordsAt(data, offset + 8, i + 1, read).Ok?
    ensures read(data, RecordsAt(data, offset + 8, i, read).value.1)
         == Ok((TableAt(data, offset, read).value.0[i], RecordsAt(data, offset + 8, i + 1, read).value.1))
  {
    var count := SectionCountAt(data, offset).value;
    RecordsAtNth(data, offset + 8, count, read, i);
  }

  /** The header fields that hold the offsets of the six tables. */
  const MasksField := 9
  const BackgroundsField := 10
  const BustupsField := 11
  const SoundEffectsField := 13
  const MoviesField := 14
  const VoicesField := 15

  /** `section_36`: the Masks table, a list of strings. */
  function Masks(data: seq<uint8>, header: seq<nat>): (r: Result<(seq<string>, nat)>)
    requires MasksField < |header|
    ensures r.Ok? ==> SectionCountAt(data, header[MasksField]) == Ok(|r.value.0|)
    ensures SectionCountAt(data, header[MasksField]).Err? ==> r == Err(SectionHeaderTooShort(header[MasksField]))
  {
    TableAt(data, header[MasksField], StringAt)
  }

  /** `section_40`: the Backgrounds table. */
  function Backgrounds(data: seq<uint8>, header: seq<nat>): (r: Result<(seq<Background>, nat)>)
    requires BackgroundsField < |header|
    ensures r.Ok? ==> SectionCountAt(data, header[BackgroundsField]) == Ok(|r.value.0|)
    ensures SectionCountAt(data, header[BackgroundsField]).Err? ==> r == Err(SectionHeaderTooShort(header[BackgroundsField]))
  {
    TableAt(data, header[BackgroundsField], BackgroundAt)
  }

  /** `section_44`: the Bustup table. */
  function Bustups(data: seq<uint8>, header: seq<nat>): (r: Result<(seq<Bustup>, nat)>)
    requires BustupsField < |header|
    ensures r.Ok? ==> SectionCountAt(data, header[BustupsField]) == Ok(|r.value.0|)
    ensures SectionCountAt(data, header[BustupsField]).Err? ==> r == Err(SectionHeaderTooShort(header[BustupsField]))
  {
    TableAt(data, header[BustupsField], BustupAt)
  }

  /** `section_52`: the Sound Effects table, a list of strings. */
  function SoundEffects(data: seq<uint8>, header: seq<nat>): (r: Result<(seq<string>, nat)>)
    requires SoundEffectsField < |header|
    ensures r.Ok? ==> SectionCountAt(data, header[SoundEffectsField]) == Ok(|r.value.0|)
    ensures SectionCountAt(data, header[SoundEffectsField]).Err? ==> r == Err(SectionHeaderTooShort(header[SoundEffectsField]))
  {
    TableAt(data, header[SoundEffectsField], StringAt)
  }

  /** `section_56`: the Movies table. */
  function Movies(data: seq<uint8>, header: seq<nat>): (r: Result<(seq<Movie>, nat)>)
    requires MoviesField < |header|
    ensures r.Ok? ==> SectionCountAt(data, header[MoviesField]) == Ok(|r.value.0|)
    ensures SectionCountAt(data, header[MoviesField]).Err? ==> r == Err(SectionHeaderTooShort(header[MoviesField]))
  {
    TableAt(data, header[MoviesField], MovieAt)
  }

  /** `section_60`: the Voice table. */
  function Voices(data: seq<uint8>, header: seq<nat>): (r: Result<(seq<Voice>, nat)>)
    requires VoicesField < |header|
    ensures r.Ok? ==> SectionCountAt(data, header[VoicesField]) == Ok(|r.value.0|)
    ensures SectionCountAt(data, header[VoicesField]).Err? ==> r == Err(SectionHeaderTooShort(header[VoicesField]))
  {
    TableAt(data, header[VoicesField], VoiceAt)
  }

  /** A Backgrounds section with `byte_size` 12 and two records. */
  const BackgroundsSample: seq<uint8> :=
    [12, 0, 0, 0, 2, 0, 0, 0,
     4, 0x61, 0x62, 0x63, 0, 5, 0,
     2, 0x78, 0, 10, 0]

  lemma BackgroundsSampleHeader()
    ensures SectionCountAt(BackgroundsSample, 0) == Ok(2)
  {
    var header := BackgroundsSample[0..8];
    assert header[4] == 2 && header[5] == 0 && header[6] == 0 && header[7] == 0;
    assert header[4..8] == [2, 0, 0, 0];
    assert LeUInt([0, 0]) == 0;
    assert LeUInt([2, 0, 0, 0]) == 2;
    assert UnpackU32s(header, 2)[1] == LeUInt(header[4..8]);
  }

  lemma BackgroundsSampleFirst()
    ensures BackgroundAt(BackgroundsSample, 8) == Ok((Background("abc", 5), 15))
  {
    assert EncodeString("abc") + LeBytes(5, 2) == BackgroundsSample[8..15];
    BackgroundAtEncode(BackgroundsSample, 8, Background("abc", 5));
  }

  lemma BackgroundsSampleSecond()
    ensures BackgroundAt(BackgroundsSample, 15) == Ok((Background("x", 10), 20))
  {
    assert EncodeString("x") + LeBytes(10, 2) == BackgroundsSample[15..20];
    BackgroundAtEncode(BackgroundsSample, 15, Background("x", 10));
  }

  /** The sample section decodes to both records, in order. */
  lemma BackgroundsExample()
    ensures TableAt(BackgroundsSample, 0, BackgroundAt)
         == Ok(([Background("abc", 5), Background("x", 10)], 20))
  {
    BackgroundsSampleHeader();
    BackgroundsSampleFirst();
    BackgroundsSampleSecond();
    var data := BackgroundsSample;
    var abc, x := Background("abc", 5), Background("x", 10);
    assert RecordsAt(data, 20, 0, BackgroundAt) == Ok(([], 20));
    assert [x] + [] == [x];
    assert RecordsAt(data, 15, 1, BackgroundAt) == Ok(([x], 20));
    assert [abc] + [x] == [abc, x];
    assert RecordsAt(data, 8, 2, BackgroundAt) == Ok(([abc, x], 20));
  }

  /** A Voice record drops its reserved byte `0xFF`. */
  lemma VoiceExample()
    ensures VoiceAt([3, 0x79, 0x7A, 0, 0xFF, 7], 0) == Ok((Voice("yz", 7), 6))
  {
    VoiceAtEncode([3, 0x79, 0x7A, 0, 0xFF, 7], 0, Voice("yz", 7), 0xFF);
  }
}
