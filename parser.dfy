/** The decoder as `scenarioparser.py` runs it: one open file whose position `seek`
    sets and `read` advances, read by `get_string`, `get_section_header`, the
    six `section_NN` loops and `decompile`. Each method is proved against the
    functions of `Primitives`, `Sections` and `Container`. */
module ScenarioParser {
  import opened LittleEndian
  import opened Results
  import opened Primitives
  import opened Sections
  import opened Container

  /** An open scenario file: its bytes and the current read position. */
  class Cursor {
    const data: seq<uint8>
    var pos: nat

    constructor (data: seq<uint8>)
      ensures this.data == data && pos == 0
    {
      this.data := data;
      pos := 0;
    }

    /** `r` is the value `spec` decodes and, when that succeeds, the cursor
        stands just after it. */
    ghost predicate Yields<T>(r: Result<T>, spec: Result<(T, nat)>)
      reads this
    {
      r == ValueOf(spec) && (spec.Ok? ==> pos == spec.value.1)
    }

    /** `file.seek(offset, 0)`; any offset, even past the end, is allowed. */
    method Seek(offset: nat)
      modifies this
      ensures pos == offset
    {
      pos := offset;
    }

    /** `file.read(k)`: up to `k` bytes, fewer at the end; the position moves
        past what was read. */
    method Read(k: nat) returns (chunk: seq<uint8>)
      modifies this
      ensures chunk == Chunk(data, old(pos), k)
      ensures pos == old(pos) + |chunk|
    {
      chunk := Chunk(data, pos, k);
      pos := pos + |chunk|;
    }

    /** `int.from_bytes(file.read(width), byteorder='little', signed=False)`. */
    method ReadUInt(width: nat) returns (r: Result<nat>)
      requires width >= 1
      modifies this
      ensures Yields(r, UIntAt(data, old(pos), width))
    {
      var start := pos;
      var bytes := Read(width);
      if |bytes| < width {
        return Err(ShortRead(start));
      }
      assert bytes == data[start .. start + width];
      return Ok(LeUInt(bytes));
    }

    /** `get_string`: the length byte, then that many bytes one at a time,
        all but the last kept as characters. */
    method GetString() returns (r: Result<string>)
      modifies this
      ensures Yields(r, StringAt(data, old(pos)))
    {
      var start := pos;
      var lengthByte := Read(1);
      if |lengthByte| < 1 {
        return Err(ShortRead(start));
      }
      var stringLength := lengthByte[0] as nat;
      var stringBytes: string := [];
      for index := 0 to stringLength
        invariant pos == start + 1 + index <= |data|
        invariant stringBytes == Latin1(data[start + 1 .. start + 1 + index])
      {
        var character := Read(1);
        if |character| < 1 {
          return Err(ShortRead(start));
        }
        stringBytes := stringBytes + [character[0] as int as char];
        assert data[start + 1 .. start + 1 + index + 1] == data[start + 1 .. start + 1 + index] + [character[0]];
      }
      return Ok(DropLast(stringBytes));
    }

    /** `get_section_header`: seeks to `offset`, reads `(byte_size,
        element_count)` and returns the count. */
    method GetSectionHeader(offset: nat) returns (r: Result<nat>)
      modifies this
      ensures r == SectionCountAt(data, offset)
      ensures r.Ok? ==> pos == offset + 8
    {
      Seek(offset);
      var sectionHeaderData := Read(8);
      if |sectionHeaderData| < 8 {
        return Err(SectionHeaderTooShort(offset));
      }
      assert sectionHeaderData == data[offset .. offset + 8];
      var sectionHeader := UnpackU32s(sectionHeaderData, 2);
      return Ok(sectionHeader[1]);
    }

    /** One Backgrounds record, as the loop of `section_40` reads it: a
        string, then a u16. */
    method ReadBackground() returns (r: Result<Background>)
      modifies this
      ensures Yields(r, BackgroundAt(data, old(pos)))
    {
      var item1 :- GetString();
      var item2 :- ReadUInt(2);
      return Ok(Background(item1, item2));
    }

    /** One Bustup record (`section_44`): two strings, then a u16. */
    method ReadBustup() returns (r: Result<Bustup>)
      modifies this
      ensures Yields(r, BustupAt(data, old(pos)))
    {
      var item1 :- GetString();
      var item2 :- GetString();
      var item3 :- ReadUInt(2);
      return Ok(Bustup(item1, item2, item3));
    }

    /** One Movies record (`section_56`): a string, then a u32. */
    method ReadMovie() returns (r: Result<Movie>)
      modifies this
      ensures Yields(r, MovieAt(data, old(pos)))
    {
      var item1 :- GetString();
      var item2 :- ReadUInt(4);
      return Ok(Movie(item1, item2));
    }

    /** One Voice record (`section_60`): a string, one byte read and
        discarded, then a u8. */
    method ReadVoice() returns (r: Result<Voice>)
      modifies this
      ensures Yields(r, VoiceAt(data, old(pos)))
    {
      var item1 :- GetString();
      var start := pos;
      var skipped := Read(1);
      if |skipped| < 1 {
        return Err(ShortRead(start));
      }
      var item2 :- ReadUInt(1);
      return Ok(Voice(item1, item2));
    }

    /** `section_36`: the Masks table at header field 9. */
    method Section36(header: seq<nat>) returns (r: Result<seq<string>>)
      requires MasksField < |header|
      modifies this
      ensures Yields(r, Masks(data, header))
    {
      ghost var table := Masks(data, header);
      var elementCount :- GetSectionHeader(header[MasksField]);
      var section36List: seq<string> := [];
      PrependNil(RecordsAt(data, pos, elementCount, StringAt));
      for index := 0 to elementCount
        invariant Prepend(section36List, RecordsAt(data, pos, elementCount - index, StringAt)) == table
      {
        PrependStep(section36List, data, pos, elementCount - index, StringAt);
        var item :- GetString();
        section36List := section36List + [item];
      }
      PrependDone(section36List, data, pos, StringAt);
      return Ok(section36List);
    }

    /** `section_40`: the Backgrounds table at header field 10. */
    method Section40(header: seq<nat>) returns (r: Result<seq<Background>>)
      requires BackgroundsField < |header|
      modifies this
      ensures Yields(r, Backgrounds(data, header))
    {
      ghost var table := Backgrounds(data, header);
      var elementCount :- GetSectionHeader(header[BackgroundsField]);
      var section40List: seq<Background> := [];
      PrependNil(RecordsAt(data, pos, elementCount, BackgroundAt));
      for index := 0 to elementCount
        invariant Prepend(section40List, RecordsAt(data, pos, elementCount - index, BackgroundAt)) == table
      {
        PrependStep(section40List, data, pos, elementCount - index, BackgroundAt);
        var item :- ReadBackground();
        section40List := section40List + [item];
      }
      PrependDone(section40List, data, pos, BackgroundAt);
      return Ok(section40List);
    }

    /** `section_44`: the Bustup table at header field 11. */
    method Section44(header: seq<nat>) returns (r: Result<seq<Bustup>>)
      requires BustupsField < |header|
      modifies this
      ensures Yields(r, Bustups(data, header))
    {
      ghost var table := Bustups(data, header);
      var elementCount :- GetSectionHeader(header[BustupsField]);
      var section44List: seq<Bustup> := [];
      PrependNil(RecordsAt(data, pos, elementCount, BustupAt));
      for index := 0 to elementCount
        invariant Prepend(section44List, RecordsAt(data, pos, elementCount - index, BustupAt)) == table
      {
        PrependStep(section44List, data, pos, elementCount - index, BustupAt);
        var item :- ReadBustup();
        section44List := section44List + [item];
      }
      PrependDone(section44List, data, pos, BustupAt);
      return Ok(section44List);
    }

    /** `section_52`: the Sound Effects table at header field 13. */
    method Section52(header: seq<nat>) returns (r: Result<seq<string>>)
      requires SoundEffectsField < |header|
      modifies this
      ensures Yields(r, SoundEffects(data, header))
    {
      ghost var table := SoundEffects(data, header);
      var elementCount :- GetSectionHeader(header[SoundEffectsField]);
      var section52List: seq<string> := [];
      PrependNil(RecordsAt(data, pos, elementCount, StringAt));
      for index := 0 to elementCount
        invariant Prepend(section52List, RecordsAt(data, pos, elementCount - index, StringAt)) == table
      {
        PrependStep(section52List, data, pos, elementCount - index, StringAt);
        var item :- GetString();
        section52List := section52List + [item];
      }
      PrependDone(section52List, data, pos, StringAt);
      return Ok(section52List);
    }

    /** `section_56`: the Movies table at header field 14. */
    method Section56(header: seq<nat>) returns (r: Result<seq<Movie>>)
      requires MoviesField < |header|
      modifies this
      ensures Yields(r, Movies(data, header))
    {
      ghost var table := Movies(data, header);
      var elementCount :- GetSectionHeader(header[MoviesField]);
      var section56List: seq<Movie> := [];
      PrependNil(RecordsAt(data, pos, elementCount, MovieAt));
      for index := 0 to elementCount
        invariant Prepend(section56List, RecordsAt(data, pos, elementCount - index, MovieAt)) == table
      {
        PrependStep(section56List, data, pos, elementCount - index, MovieAt);
        var item :- ReadMovie();
        section56List := section56List + [item];
      }
      PrependDone(section56List, data, pos, MovieAt);
      return Ok(section56List);
    }

    /** `section_60`: the Voice table at header field 15. */
    method Section60(header: seq<nat>) returns (r: Result<seq<Voice>>)
      requires VoicesField < |header|
      modifies this
      ensures Yields(r, Voices(data, header))
    {
      ghost var table := Voices(data, header);
      var elementCount :- GetSectionHeader(header[VoicesField]);
      var section60List: seq<Voice> := [];
      PrependNil(RecordsAt(data, pos, elementCount, VoiceAt));
      for index := 0 to elementCount
        invariant Prepend(section60List, RecordsAt(data, pos, elementCount - index, VoiceAt)) == table
      {
        PrependStep(section60List, data, pos, elementCount - index, VoiceAt);
        var item :- ReadVoice();
        section60List := section60List + [item];
      }
      PrependDone(section60List, data, pos, VoiceAt);
      return Ok(section60List);
    }

  }

  /** The command dump of `decompile`: seek to `scriptOffset`, then copy
      one byte at a time until `file.read(1)` comes back empty. */
  method DumpCommands(file: Cursor, scriptOffset: nat) returns (codeDump: seq<uint8>)
    modifies file
    ensures codeDump == ScriptRegion(file.data, scriptOffset)
  {
    file.Seek(scriptOffset);
    codeDump := [];
    var byte := file.Read(1);
    while byte != []
      invariant |byte| <= 1
      invariant byte == [] ==> file.pos >= |file.data|
      invariant scriptOffset <= |file.data| ==>
        scriptOffset <= file.pos <= |file.data| && codeDump + byte == file.data[scriptOffset .. file.pos]
      invariant scriptOffset > |file.data| ==> codeDump == [] && byte == []
      decreases |file.data| - file.pos + |byte|
    {
      codeDump := codeDump + byte;
      byte := file.Read(1);
    }
  }

  /** `decompile` on the bytes of a scenario file: the header, the six
      tables in file order, then a byte-by-byte copy of the command region. */
  method Decompile(data: seq<uint8>) returns (r: Result<Scenario>)
    ensures r == DecodeScenario(data)
  {
    var file := new Cursor(data);
    var headerData := file.Read(HeaderSize);
    if |headerData| < HeaderSize {
      return Err(HeaderTooShort);
    }
    assert headerData == data[..HeaderSize];
    var header := UnpackU32s(headerData, HeaderFields);
    var scriptOffset := header[ScriptOffsetField];

    var section36List :- file.Section36(header);
    var section40List :- file.Section40(header);
    var section44List :- file.Section44(header);
    var section52List :- file.Section52(header);
    var section56List :- file.Section56(header);
    var section60List :- file.Section60(header);

    var codeDump := DumpCommands(file, scriptOffset);
    return Ok(Scenario(header, section36List, section40List, section44List,
                       section52List, section56List, section60List, codeDump));
  }
}
