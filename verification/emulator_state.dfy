/** The transaction emulator handle and the calls that create and configure it
    (emulator/emulator-extern.cpp: `decode_config`, `transaction_emulator_create`,
    the `transaction_emulator_set_*` setters, `emulator_set_verbosity_level`).
    A setter answers whether it succeeded and the handle it leaves; a failing
    setter leaves the handle as it was. */
module EmulatorState {
  import opened Wrappers
  import opened Bits
  import opened Cells
  import opened Foreign

  /** What the handle holds. A `None` field has not been set since creation. */
  datatype Emulator = Emulator(
    config: Config,
    libs: Option<Cell>,
    vmLogVerbosity: int,
    unixtime: Option<Uint32>,
    lt: Option<Uint64>,
    randSeed: Option<Bits256>,
    ignoreChksig: Option<bool>)

  /** A setter's answer: whether it succeeded, and the handle afterwards. */
  datatype Set = Set(ok: bool, emulator: Emulator)

  const ConfigBase64Prefix: string := "Can't decode base64 config params boc: "
  const ConfigBocPrefix: string := "Can't deserialize config params boc: "
  const ConfigUnpackPrefix: string := "Can't unpack config params: "

  /** `decode_config`: base64, then the bag of cells, then the configuration's own
      unpacking, each failure reported under its own prefix. */
  function DecodeConfig(codec: Codec, tlb: Tlb, text: string): (r: Result<Config>)
    ensures codec.base64Decode(text).Err? ==> r == Err(ConfigBase64Prefix + codec.base64Decode(text).error)
    ensures codec.base64Decode(text).Ok? && codec.bocDeserialize(codec.base64Decode(text).value).Err? ==>
      r == Err(ConfigBocPrefix + codec.bocDeserialize(codec.base64Decode(text).value).error)
    ensures CellFromBase64(codec, text).Ok? && tlb.unpackConfig(CellFromBase64(codec, text).value).Err? ==>
      r == Err(ConfigUnpackPrefix + tlb.unpackConfig(CellFromBase64(codec, text).value).error)
    ensures r.Ok? <==> CellFromBase64(codec, text).Ok? && tlb.unpackConfig(CellFromBase64(codec, text).value).Ok?
    ensures r.Ok? ==> r == tlb.unpackConfig(CellFromBase64(codec, text).value)
  {
    var bytes :- codec.base64Decode(text).Prefix(ConfigBase64Prefix);
    var cell :- codec.bocDeserialize(bytes).Prefix(ConfigBocPrefix);
    tlb.unpackConfig(cell).Prefix(ConfigUnpackPrefix)
  }

  /** `transaction_emulator_create`: a fresh handle over a decodable configuration. */
  function Create(codec: Codec, tlb: Tlb, configText: string, vmLogVerbosity: int): (r: Option<Emulator>)
    ensures r.Some? <==> DecodeConfig(codec, tlb, configText).Ok?
    ensures r.Some? ==> r.value.config == DecodeConfig(codec, tlb, configText).value
    ensures r.Some? ==> r.value.libs.None? && r.value.randSeed.None? && r.value.vmLogVerbosity == vmLogVerbosity
  {
    match DecodeConfig(codec, tlb, configText)
    case Err(_) => None
    case Ok(config) => Some(Emulator(config, None, vmLogVerbosity, None, None, None, None))
  }

  /** `transaction_emulator_set_unixtime`: always succeeds. */
  function SetUnixtime(e: Emulator, unixtime: Uint32): (r: Set)
    ensures r.ok && r.emulator.unixtime == Some(unixtime)
    ensures r.emulator.(unixtime := e.unixtime) == e
  {
    Set(true, e.(unixtime := Some(unixtime)))
  }

  /** `transaction_emulator_set_lt`: always succeeds. */
  function SetLt(e: Emulator, lt: Uint64): (r: Set)
    ensures r.ok && r.emulator.lt == Some(lt)
    ensures r.emulator.(lt := e.lt) == e
  {
    Set(true, e.(lt := Some(lt)))
  }

  /** `transaction_emulator_set_ignore_chksig`: always succeeds. */
  function SetIgnoreChksig(e: Emulator, ignore: bool): (r: Set)
    ensures r.ok && r.emulator.ignoreChksig == Some(ignore)
    ensures r.emulator.(ignoreChksig := e.ignoreChksig) == e
  {
    Set(true, e.(ignoreChksig := Some(ignore)))
  }

  /** `transaction_emulator_set_rand_seed`: exactly 64 hex digits, read as 256 bits. */
  function SetRandSeed(e: Emulator, hex: string): (r: Set)
    ensures r.ok <==> |hex| == 64 && forall i :: 0 <= i < |hex| ==> IsHexDigit(hex[i])
    ensures !r.ok ==> r.emulator == e
    ensures r.ok ==> r.emulator.randSeed.Some? && HexDecode(hex) == Some(r.emulator.randSeed.value)
    ensures r.ok ==> r.emulator.(randSeed := e.randSeed) == e
  {
    if |hex| != 64 then Set(false, e)
    else
      match HexDecode(hex)
      case None => Set(false, e)
      case Some(bits) => Set(true, e.(randSeed := Some(bits)))
  }

  /** A seed written as hex is the seed the handle then holds. */
  lemma RandSeedRoundTrip(e: Emulator, seed: Bits256)
    ensures SetRandSeed(e, ToHex(seed)) == Set(true, e.(randSeed := Some(seed)))
  {
    HexRoundTrip(seed);
  }

  /** `transaction_emulator_set_config`. */
  function SetConfig(codec: Codec, tlb: Tlb, e: Emulator, text: string): (r: Set)
    ensures r.ok <==> DecodeConfig(codec, tlb, text).Ok?
    ensures !r.ok ==> r.emulator == e
    ensures r.ok ==> r.emulator == e.(config := DecodeConfig(codec, tlb, text).value)
  {
    match DecodeConfig(codec, tlb, text)
    case Err(_) => Set(false, e)
    case Ok(config) => Set(true, e.(config := config))
  }

  /** Setting the same configuration twice is the same as setting it once. */
  lemma SetConfigIdempotent(codec: Codec, tlb: Tlb, e: Emulator, text: string)
    ensures SetConfig(codec, tlb, SetConfig(codec, tlb, e, text).emulator, text) == SetConfig(codec, tlb, e, text)
  {
  }

  /** `transaction_emulator_set_libs`: no libraries (a null pointer) is accepted and
      changes nothing; otherwise the text must decode to a cell. */
  function SetLibs(codec: Codec, e: Emulator, libs: Option<string>): (r: Set)
    ensures libs.None? ==> r == Set(true, e)
    ensures libs.Some? ==> (r.ok <==> CellFromBase64(codec, libs.value).Ok?)
    ensures !r.ok ==> r.emulator == e
    ensures r.ok && libs.Some? ==> r.emulator == e.(libs := Some(CellFromBase64(codec, libs.value).value))
  {
    match libs
    case None => Set(true, e)
    case Some(text) =>
      match CellFromBase64(codec, text)
      case Err(_) => Set(false, e)
      case Ok(cell) => Set(true, e.(libs := Some(cell)))
  }

  // ----- process-wide log verbosity -----

  /** `VERBOSITY_NAME(FATAL)` and `VERBOSITY_NAME(NEVER)` of td's logging. */
  const VerbosityFatal: int := 0
  const VerbosityNever: int := 1024

  /** `emulator_set_verbosity_level`: a level in [0, NEVER] is accepted and the
      process log level becomes FATAL + level; anything else is refused and the
      current level stays. Returns the answer and the level afterwards. */
  function SetVerbosityLevel(current: int, level: int): (r: (bool, int))
    ensures r.0 <==> 0 <= level <= VerbosityNever
    ensures !r.0 ==> r.1 == current
    ensures r.0 ==> r.1 - VerbosityFatal == level
  {
    if 0 <= level && level <= VerbosityNever then (true, VerbosityFatal + level) else (false, current)
  }
}
