/** The container: the 80-byte file header, the six tables it points to, and
    the trailing command region, decoded in the order `decompile` reads them. */
module Container {
  import opened LittleEndian
  import opened Results
  import opened Primitives
  import opened Sections

  const HeaderSize := 80
  const HeaderFields := 20

  /** The header field holding the offset where the command region begins. */
  const ScriptOffsetField := 8

  /** The file header, `unpack('<IIIIIIIIIIIIIIIIIIII', file.read(80))`:
      twenty little-endian u32 values from the first 80 bytes. */
  function HeaderAt(data: seq<uint8>): (r: Result<seq<nat>>)
    ensures r.Ok? <==> |data| >= HeaderSize
    ensures r.Err? ==> r.error == HeaderTooShort
    ensures r.Ok? ==> |r.value| == HeaderFields && AllU32(r.value)
  {
    if |data| < HeaderSize then Err(HeaderTooShort)
    else Ok(UnpackU32s(data[..HeaderSize], HeaderFields))
  }

  /** A header packed in front of any bytes is read back unchanged. */
  lemma HeaderAtPacked(header: seq<nat>, rest: seq<uint8>)
    requires |header| == HeaderFields && AllU32(header)
    ensures HeaderAt(PackU32s(header) + rest) == Ok(header)
  {
    var data := PackU32s(header) + rest;
    assert data[..HeaderSize] == PackU32s(header);
    UnpackPackU32s(header);
  }

  /** Conversely, the header read from a file packs back to its first 80 bytes. */
  lemma PackHeaderAt(data: seq<uint8>)
    requires |data| >= HeaderSize
    ensures PackU32s(HeaderAt(data).value) == data[..HeaderSize]
  {
    PackUnpackU32s(data[..HeaderSize], HeaderFields);
  }

  /** The bytes the `while byte := file.read(1)` loop copies to
      `code_dump.bin` after seeking to `start`: every byte from `start` to the
      end, in order; none when `start` is at or past the end. */
  function ScriptRegion(data: seq<uint8>, start: nat): (r: seq<uint8>)
    ensures |r| == if start <= |data| then |data| - start else 0
    ensures forall i :: 0 <= i < |r| ==> r[i] == data[start + i]
  {
    if start <= |data| then data[start..] else []
  }

  /** Everything one decode produces: the header, the six tables written to
      `head_data.json` (under the keys `Section_36` ... `Section_60`), and
      the command region. */
  datatype Scenario = Scenario(
    header: seq<nat>,
    masks: seq<string>,
    backgrounds: seq<Background>,
    bustups: seq<Bustup>,
    soundEffects: seq<string>,
    movies: seq<Movie>,
    voices: seq<Voice>,
    script: seq<uint8>)

  /** Every one of the six tables located by `header` decodes. */
  predicate TablesDecode(data: seq<uint8>, header: seq<nat>)
    requires |header| == HeaderFields
  {
    Masks(data, header).Ok? && Backgrounds(data, header).Ok? && Bustups(data, header).Ok? &&
    SoundEffects(data, header).Ok? && Movies(data, header).Ok? && Voices(data, header).Ok?
  }

  /** `decompile`: the header, then the six tables in file order, then the
      command region. It succeeds exactly when the header and all six tables
      decode, and each table is the one decoded at its own header field. */
  function DecodeScenario(data: seq<uint8>): (r: Result<Scenario>)
    ensures |data| < HeaderSize ==> r == Err(HeaderTooShort)
    ensures r.Ok? <==> (HeaderAt(data).Ok? && TablesDecode(data, HeaderAt(data).value))
    ensures r.Ok? ==> HeaderAt(data) == Ok(r.value.header)
    ensures r.Ok? ==> ValueOf(Masks(data, r.value.header)) == Ok(r.value.masks)
    ensures r.Ok? ==> ValueOf(Backgrounds(data, r.value.header)) == Ok(r.value.backgrounds)
    ensures r.Ok? ==> ValueOf(Bustups(data, r.value.header)) == Ok(r.value.bustups)
    ensures r.Ok? ==> ValueOf(SoundEffects(data, r.value.header)) == Ok(r.value.soundEffects)
    ensures r.Ok? ==> ValueOf(Movies(data, r.value.header)) == Ok(r.value.movies)
    ensures r.Ok? ==> ValueOf(Voices(data, r.value.header)) == Ok(r.value.voices)
    ensures r.Ok? ==> SectionCountAt(data, r.value.header[MasksField]) == Ok(|r.value.masks|)
    ensures r.Ok? ==> SectionCountAt(data, r.value.header[BackgroundsField]) == Ok(|r.value.backgrounds|)
    ensures r.Ok? ==> SectionCountAt(data, r.value.header[BustupsField]) == Ok(|r.value.bustups|)
    ensures r.Ok? ==> SectionCountAt(data, r.value.header[SoundEffectsField]) == Ok(|r.value.soundEffects|)
    ensures r.Ok? ==> SectionCountAt(data, r.value.header[MoviesField]) == Ok(|r.value.movies|)
    ensures r.Ok? ==> SectionCountAt(data, r.value.header[VoicesField]) == Ok(|r.value.voices|)
    ensures r.Ok? ==> r.value.script == ScriptRegion(data, r.value.header[ScriptOffsetField])
  {
    var header :- HeaderAt(data);
    var masks :- Masks(data, header);
    var backgrounds :- Backgrounds(data, header);
    var bustups :- Bustups(data, header);
    var soundEffects :- SoundEffects(data, header);
    var movies :- Movies(data, header);
    var voices :- Voices(data, header);
    Ok(Scenario(header, masks.0, backgrounds.0, bustups.0, soundEffects.0, movies.0, voices.0,
                ScriptRegion(data, header[ScriptOffsetField])))
  }

  /** The decode stops at the first table, in file order, that fails, and
      that table's error is the decode's error. */
  lemma DecodeScenarioFirstError(data: seq<uint8>)
    requires HeaderAt(data).Ok?
    ensures var h := HeaderAt(data).value;
      && (Masks(data, h).Err? ==> DecodeScenario(data) == Err(Masks(data, h).error))
      && (Masks(data, h).Ok? && Backgrounds(data, h).Err? ==>
            DecodeScenario(data) == Err(Backgrounds(data, h).error))
      && (Masks(data, h).Ok? && Backgrounds(data, h).Ok? && Bustups(data, h).Err? ==>
            DecodeScenario(data) == Err(Bustups(data, h).error))
      && (Masks(data, h).Ok? && Backgrounds(data, h).Ok? && Bustups(data, h).Ok? &&
          SoundEffects(data, h).Err? ==>
            DecodeScenario(data) == Err(SoundEffects(data, h).error))
      && (Masks(data, h).Ok? && Backgrounds(data, h).Ok? && Bustups(data, h).Ok? &&
          SoundEffects(data, h).Ok? && Movies(data, h).Err? ==>
            DecodeScenario(data) == Err(Movies(data, h).error))
      && (Masks(data, h).Ok? && Backgrounds(data, h).Ok? && Bustups(data, h).Ok? &&
          SoundEffects(data, h).Ok? && Movies(data, h).Ok? && Voices(data, h).Err? ==>
            DecodeScenario(data) == Err(Voices(data, h).error))
  {
  }

  /** Each table reads only its own offset field: two headers that agree on
      that one field give the same table, whatever the other nineteen fields
      hold. */
  lemma TablesIgnoreOtherFields(data: seq<uint8>, h1: seq<nat>, h2: seq<nat>)
    requires |h1| == |h2| == HeaderFields
    ensures h1[MasksField] == h2[MasksField] ==> Masks(data, h1) == Masks(data, h2)
    ensures h1[BackgroundsField] == h2[BackgroundsField] ==> Backgrounds(data, h1) == Backgrounds(data, h2)
    ensures h1[BustupsField] == h2[BustupsField] ==> Bustups(data, h1) == Bustups(data, h2)
    ensures h1[SoundEffectsField] == h2[SoundEffectsField] ==> SoundEffects(data, h1) == SoundEffects(data, h2)
    ensures h1[MoviesField] == h2[MoviesField] ==> Movies(data, h1) == Movies(data, h2)
    ensures h1[VoicesField] == h2[VoicesField] ==> Voices(data, h1) == Voices(data, h2)
  {
  }
}
