# Scenario container decoder, modelled in Dafny

`scenarioparser.py` decodes the binary "scenario" file of a game. The file is
laid out as follows:

- an 80-byte header of twenty little-endian u32 fields;
- six metadata tables, whose offsets are header fields 9, 10, 11, 13, 14 and
  15: Masks, Backgrounds, Bustups, Sound Effects, Movies and Voices;
- a command region that runs from header field 8 to the end of the file.

Each table starts with an 8-byte section header `(byte_size,
element_count)`, followed by `element_count` records stored back to back.
The records are built from two kinds of field:

- length-prefixed strings: a length byte `n`, then `n` bytes whose last byte
  is dropped;
- little-endian unsigned integers.

The project models that decoder in two layers:

- Pure functions on byte sequences, which serve as the specification of the imperative layer:
  - `LittleEndian`: unsigned little-endian integers.
  - `Primitives`: exact reads, `get_string` as `StringAt`, u32 unpacking.
  - `Sections`: `get_section_header`, the four record layouts, and a generic
    table of `count` records.
  - `Container`: the file header, the command region, and the whole decode
    as `DecodeScenario`.
- An imperative layer in `ScenarioParser`, written the way `scenarioparser.py` is.
  - A `Cursor` object holds the file bytes and a position. `Seek` and `Read`
    behave like Python's `seek` and `read`.
  - `GetString`, the six `SectionNN` methods and `DumpCommands` (the
    byte-by-byte command dump) are methods with loops. `GetSectionHeader`
    and `Decompile` call them in the order `decompile` does.
  - Each method is proved to compute exactly what the corresponding function
    specifies.

The properties proved about the functions are:

- Round trips between decoding and encoding, in both directions: little-endian
  integers, strings, the u32 header and every record layout. Decoding then
  re-encoding gives back the stored bytes whenever each string has a nonzero
  length byte and a NUL last byte. Other strings still decode, but `0` and
  `1` as a length byte both give `""`, and the last byte is dropped
  unchecked, so such bytes cannot be rebuilt.
- How a string decode behaves: its length, its characters, which byte it
  ignores, and what happens when the data is cut short.
- What a table is: record `i` is the one found where the first `i` records
  end.
- Each of the six tables depends only on its own header field.
- Where the whole decode fails: at the first table, in file order, that fails.
- Worked examples: a Backgrounds section and a Voice record.

Errors are explicit values of the `Result` type.

- `HeaderTooShort`: the 80-byte header is missing. Python's `unpack` raises
  here.
- `SectionHeaderTooShort(offset)`: fewer than 8 bytes are left at a section
  offset, including an offset past the end of the file. Python's `unpack`
  raises here too.
- `ShortRead(at)`: a string or an integer field runs past the end of the
  data. Python does not fail here; see "Left out".

In these cases the model follows the code:

- A length byte of 0 is not an error. Python reads no characters, so
  `''.join([][:-1])` is `""`, and the cursor moves past the length byte only.
  `StringAt` returns `Ok(("", pos + 1))`.
- An offset past the end of the file is not a separate error. The seek
  succeeds and the 8-byte read comes back short, so the result is
  `SectionHeaderTooShort`.
- The magic number is never checked.

## Model

| member | source | states |
|---|---|---|
| LittleEndian.LeUInt | scenarioparser.py:19 | `int.from_bytes(bytes, 'little', signed=False)`: the value of `k` bytes is an unsigned integer below `256^k` |
| LittleEndian.LeUIntOfLeBytes | scenarioparser.py:19 | Decoding the little-endian encoding of a value that fits in `width` bytes gives the value back |
| LittleEndian.LeBytesOfLeUInt | scenarioparser.py:19 | Re-encoding the value of any bytes at their own width gives the same bytes: `int.from_bytes(..., 'little')` loses nothing |
| LittleEndian.LeUIntInjective | scenarioparser.py:19 | Two byte strings of equal width with the same little-endian value are equal |
| Primitives.Chunk | scenarioparser.py:31 | `file.read(k)` returns at most `k` bytes, all taken from the data in order starting at the position; it returns fewer only at the end of the data, and nothing past it |
| Primitives.BytesAt | scenarioparser.py:152 | An exact `k`-byte read succeeds exactly when `k` bytes remain, yields the same bytes as `file.read(k)`, and otherwise reports `ShortRead` at its position |
| Primitives.UIntAt | scenarioparser.py:109 | A `width`-byte unsigned read succeeds exactly when `width` bytes remain, moves the position by `width`, and gives a value below `256^width` |
| Primitives.UIntAtLeBytes | scenarioparser.py:109 | Wherever the data holds `LeBytes(v, width)`, the integer read there is `v` and ends `width` bytes later |
| Primitives.Latin1 | scenarioparser.py:22 | `chr` applied to each byte read: one character per byte, as many characters as bytes; `StringAtChars` states their code points |
| Primitives.DropLast | scenarioparser.py:25 | The `[:-1]` slice: a prefix of the list, one element shorter, or empty when the list is empty |
| Primitives.StringAt | scenarioparser.py:18-25 | `get_string` succeeds exactly when the length byte and its `n` bytes are present. It consumes `1 + n` bytes and returns `n - 1` characters, or none when `n == 0`. A failure is `ShortRead` at the string's position |
| Primitives.StringAtChars | scenarioparser.py:21-23 | Character `i` of a decoded string has the code point of byte `pos + 1 + i` (one byte per character, Latin-1) |
| Primitives.StringAtEncodeString | scenarioparser.py:17-25 | A string stored as length byte `|s| + 1`, its Latin-1 bytes and a NUL decodes back to `s` and consumes all `|s| + 2` bytes |
| Primitives.EncodeStringOfStringAt | scenarioparser.py:17-25 | If a decoded string has a nonzero length byte and a NUL as its last byte, then the string is encodable and re-encoding it gives exactly the bytes it was read from |
| Primitives.StringAtIgnoresLastByte | scenarioparser.py:24-25 | Whatever the last byte of a string is (the terminator is never checked), the same string is decoded |
| Primitives.StringAtTruncated | scenarioparser.py:19-22 | Cutting the data anywhere before the end of a string turns its decode into `ShortRead` at the string's position, never a shorter string |
| Primitives.UnpackU32s | scenarioparser.py:32 | `struct.unpack('<I...')` on exactly `4 * count` bytes gives `count` values, each below `2^32` |
| Primitives.UnpackPackU32s | scenarioparser.py:32 | Unpacking `'<I...'` from the packed bytes of u32 values gives the same values |
| Primitives.PackUnpackU32s | scenarioparser.py:32 | Packing the values unpacked from `4 * count` bytes gives the same bytes |
| Primitives.PackU32sAt | scenarioparser.py:32 | Field `i` of a packed sequence occupies bytes `4i .. 4i + 4` and holds that value's little-endian encoding |
| Sections.SectionCountAt | scenarioparser.py:7-14 | `get_section_header` succeeds exactly when 8 bytes are present at the offset; otherwise it fails with `SectionHeaderTooShort(offset)`. The count it returns fits in a u32 |
| Sections.SectionCountAtPacked | scenarioparser.py:10-14 | A section header packed as `(byte_size, element_count)` is read back as `element_count` |
| Sections.SectionCountIgnoresByteSize | scenarioparser.py:11-14 | Replacing `byte_size` by any 4 bytes leaves the count read unchanged: `byte_size` bounds nothing |
| Sections.BackgroundAt | scenarioparser.py:107-110 | A Backgrounds record decodes exactly when its string decodes and 2 more bytes follow it. Its name is the string `get_string` reads, its flag is the u16 read right after that string, and the record ends there. Otherwise the error is `ShortRead` at the string, or at the u16 when only the u16 is short |
| Sections.BackgroundAtEncode | scenarioparser.py:107-110 | A stored Backgrounds record (string, u16) decodes back to itself and consumes exactly its encoding |
| Sections.EncodeBackgroundOfBackgroundAt | scenarioparser.py:107-110 | A decoded Backgrounds record whose string has a nonzero length byte and a NUL last byte re-encodes to exactly the bytes it was read from |
| Sections.BustupAt | scenarioparser.py:118-122 | A Bustup record decodes exactly when its first string decodes and a Backgrounds-shaped record (second string, u16) decodes after it. Its name is that first string, and its second string, flag and end are those of the record after it. Otherwise the error is the first failing read's |
| Sections.BustupAtFields | scenarioparser.py:118-122 | After its first string, a Bustup record is laid out like a Backgrounds record holding the second string and the flag |
| Sections.BustupNameAt | scenarioparser.py:119 | A stored Bustup record's first `get_string` returns its first string and ends right after it |
| Sections.BustupTailAt | scenarioparser.py:120-121 | After the first string, the second `get_string` and the u16 read return the record's second string and flag and end where the stored record ends |
| Sections.BustupAtEncode | scenarioparser.py:118-122 | A stored Bustup record (string, string, u16) decodes back to itself and consumes exactly its encoding |
| Sections.EncodeBustupOfFields | scenarioparser.py:119-121 | A first string followed by a Backgrounds-shaped tail (second string, u16), each string with a nonzero length byte and a NUL last byte, are exactly the bytes of the encoded Bustup record |
| Sections.EncodeBustupOfBustupAt | scenarioparser.py:118-122 | A decoded Bustup record whose two strings have nonzero length bytes and NUL last bytes re-encodes to exactly the bytes it was read from |
| Sections.MovieAt | scenarioparser.py:139-142 | A Movies record decodes exactly when its string decodes and 4 more bytes follow it. Its name is the string `get_string` reads, its value is the u32 read right after that string, and the record ends there. Otherwise the error is `ShortRead` at the string, or at the u32 |
| Sections.MovieAtEncode | scenarioparser.py:139-142 | A stored Movies record (string, u32) decodes back to itself and consumes exactly its encoding |
| Sections.EncodeMovieOfMovieAt | scenarioparser.py:139-142 | A decoded Movies record whose string has a nonzero length byte and a NUL last byte re-encodes to exactly the bytes it was read from |
| Sections.VoiceAt | scenarioparser.py:150-154 | A Voice record decodes exactly when its string decodes and 2 more bytes follow it. Its name is the string `get_string` reads, one byte is skipped, its value is the next byte, and the record ends there. Otherwise the error is `ShortRead` at the string, at the skipped byte or at the value |
| Sections.VoiceAtEncode | scenarioparser.py:150-154 | A stored Voice record decodes back to itself whatever its skipped byte holds, and consumes exactly its encoding |
| Sections.EncodeVoiceOfVoiceAt | scenarioparser.py:150-154 | A decoded Voice record whose string has a nonzero length byte and a NUL last byte re-encodes, with the skipped byte as its discarded byte, to exactly the bytes it was read from |
| Sections.VoiceExample | scenarioparser.py:150-154 | The bytes `03 'y' 'z' 00 FF 07` decode as the Voice record `("yz", 7)`; the reserved `0xFF` is dropped |
| Sections.RecordsAt | scenarioparser.py:98-99 | A successful read of `count` records gives exactly `count` records |
| Sections.PrependStep | scenarioparser.py:98-99 | One loop iteration either appends the record read at the current position to the list so far, or ends the table with that record's error |
| Sections.RecordsAtSplit | scenarioparser.py:98-99 | Reading `m + n` records is reading `m` records, then `n` more starting where they end |
| Sections.RecordsAtNth | scenarioparser.py:98-99 | In a decoded table, record `i` is what the record reader finds where the first `i` records end, and record `i + 1` starts where record `i` ends |
| Sections.TableAt | scenarioparser.py:96-100 | A decoded table has as many records as its section header's `element_count`. A zero count gives the empty table. A missing section header is the table's error |
| Sections.TableAtNth | scenarioparser.py:96-99 | A decoded table is exactly its `element_count` records read from `offset + 8`, right after the section header: record `i` is what the record reader finds where the first `i` records end |
| Sections.Masks | scenarioparser.py:95-100 | `section_36`: a table of strings at header field 9; its length is that section's `element_count`, and a missing section header is its error |
| Sections.Backgrounds | scenarioparser.py:104-111 | `section_40`: a table of Backgrounds records at header field 10; its length is that section's `element_count`, and a missing section header is its error |
| Sections.Bustups | scenarioparser.py:115-123 | `section_44`: a table of Bustup records at header field 11; its length is that section's `element_count`, and a missing section header is its error |
| Sections.SoundEffects | scenarioparser.py:127-132 | `section_52`: a table of strings at header field 13; its length is that section's `element_count`, and a missing section header is its error |
| Sections.Movies | scenarioparser.py:136-143 | `section_56`: a table of Movies records at header field 14; its length is that section's `element_count`, and a missing section header is its error |
| Sections.Voices | scenarioparser.py:147-155 | `section_60`: a table of Voice records at header field 15; its length is that section's `element_count`, and a missing section header is its error |
| Sections.BackgroundsSampleHeader | scenarioparser.py:7-14 | The sample section's header `(12, 2)` is read as count 2 |
| Sections.BackgroundsExample | scenarioparser.py:104-111 | A 20-byte Backgrounds section with count 2 decodes to `[("abc", 5), ("x", 10)]`, in file order |
| Container.HeaderAt | scenarioparser.py:31-32 | The header decodes exactly when at least 80 bytes exist, into twenty u32 values; otherwise it fails with `HeaderTooShort` |
| Container.HeaderAtPacked | scenarioparser.py:31-32 | Twenty packed u32 values in front of any bytes decode back as the header |
| Container.PackHeaderAt | scenarioparser.py:31-32 | The decoded header packs back to the file's first 80 bytes |
| Container.ScriptRegion | scenarioparser.py:85-87 | The command dump is every byte from the script offset to the end of the file, in order, and is empty when the offset is at or past the end |
| Container.DecodeScenario | scenarioparser.py:28-87 | `decompile` on fewer than 80 bytes fails with `HeaderTooShort`. It succeeds exactly when the header and all six tables decode. On success, the header is the decoded header, each of the six tables is the one decoded at its own header field and has its section's `element_count` records, and the script is the region from header field 8 |
| Container.DecodeScenarioFirstError | scenarioparser.py:47-67 | When the header decodes, the decode's error is the error of the first table, in the order Masks, Backgrounds, Bustups, Sound Effects, Movies, Voices, that fails |
| Container.TablesIgnoreOtherFields | scenarioparser.py:95-155 | Each table reads only its own offset field (9, 10, 11, 13, 14 or 15): two headers that agree on that one field give the same table, whatever the other fields hold |
| ScenarioParser.Cursor.constructor | scenarioparser.py:30 | Opening the file: the cursor holds the bytes and stands at position 0 |
| ScenarioParser.Cursor.Seek | scenarioparser.py:8 | `seek(offset, 0)` moves to any offset, including one past the end |
| ScenarioParser.Cursor.Read | scenarioparser.py:31 | `read(k)` returns `Chunk(data, pos, k)` and advances by exactly the number of bytes returned |
| ScenarioParser.Cursor.ReadUInt | scenarioparser.py:109 | The `int.from_bytes` read returns the value `UIntAt` specifies and leaves the cursor after it |
| ScenarioParser.Cursor.GetString | scenarioparser.py:18-25 | The byte-at-a-time loop returns exactly `StringAt` at the old position, and on success leaves the cursor where `StringAt` ends |
| ScenarioParser.Cursor.GetSectionHeader | scenarioparser.py:7-14 | Returns `SectionCountAt(data, offset)`, and on success leaves the cursor 8 bytes after the offset, where the records begin |
| ScenarioParser.Cursor.ReadBackground | scenarioparser.py:108-110 | One loop body of `section_40` yields `BackgroundAt` at the old position |
| ScenarioParser.Cursor.ReadBustup | scenarioparser.py:119-122 | One loop body of `section_44` yields `BustupAt` at the old position |
| ScenarioParser.Cursor.ReadMovie | scenarioparser.py:140-142 | One loop body of `section_56` yields `MovieAt` at the old position |
| ScenarioParser.Cursor.ReadVoice | scenarioparser.py:151-154 | One loop body of `section_60` yields `VoiceAt` at the old position |
| ScenarioParser.Cursor.Section36 | scenarioparser.py:95-100 | The Masks loop returns the table `TableAt` specifies at header field 9 and leaves the cursor at its end |
| ScenarioParser.Cursor.Section40 | scenarioparser.py:104-111 | The Backgrounds loop returns the table at header field 10 and leaves the cursor at its end |
| ScenarioParser.Cursor.Section44 | scenarioparser.py:115-123 | The Bustup loop returns the table at header field 11 and leaves the cursor at its end |
| ScenarioParser.Cursor.Section52 | scenarioparser.py:127-132 | The Sound Effects loop returns the table at header field 13 and leaves the cursor at its end |
| ScenarioParser.Cursor.Section56 | scenarioparser.py:136-143 | The Movies loop returns the table at header field 14 and leaves the cursor at its end |
| ScenarioParser.Cursor.Section60 | scenarioparser.py:147-155 | The Voice loop returns the table at header field 15 and leaves the cursor at its end |
| ScenarioParser.DumpCommands | scenarioparser.py:85-87 | The `while byte := file.read(1)` copy returns exactly `ScriptRegion` from the script offset |
| ScenarioParser.Decompile | scenarioparser.py:28-88 | The whole imperative decode (header read, six section loops in file order, command dump) returns exactly `DecodeScenario` of the file's bytes |

## Left out

- Short reads inside records: Python's `file.read` returns fewer bytes at
  the end of the file, and `int.from_bytes(b'')` is `0`, so `get_string` and
  the record loops carry on with zeros or `'\x00'` characters. This model
  stops instead, with `ShortRead` at the field's position.
  `Primitives.StringAt`, `Primitives.UIntAt`, `Primitives.BytesAt` and the
  `Cursor` methods built on them all behave this way.
- ScenarioParser.Cursor.ReadUInt: requires `width >= 1`. `scenarioparser.py`
  only reads widths 1, 2 and 4. A zero-width read would return 0 without moving,
  and that case is not modelled.
- `script_section` (lines 158-162) and its call at line 91 are not modelled.
  Its only effect is one more `get_section_header` at header field 8, whose
  result is discarded. That call raises when fewer than 8 bytes lie at that
  offset, after both output files have been written. `Decompile` and
  `DecodeScenario` end after the command dump.
- The command-line interface (lines 165-174) and all `logging` calls are not
  modelled.
- File input and output are not modelled:
  - opening the scenario file is the `Cursor` constructor over its bytes;
  - writing `head_data.json` and `code_dump.bin` is returning the tables
    and the command region in `Scenario`.
- The JSON key names `item1`, `item2` and `item3` appear in the model as
  record fields named `name`, `flag`, `secondaryName` and `value`.
- The header fields other than 8, 9, 10, 11, 13, 14 and 15 are decoded but
  not interpreted. The magic number (field 0) is only logged. The size
  field (field 1) is used only by `script_section`, which is not modelled.
- Section `byte_size` values are read but never checked against the records,
  exactly as in `scenarioparser.py`.
