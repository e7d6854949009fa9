/** The WebAssembly entry point (emulator/emulator-emscripten.cpp): `emulate`
    decodes the emulation parameters from JSON, creates a transaction emulator,
    applies the parameters through the setters, runs one transaction and wraps
    the response together with the captured log.

    The entry point reads the parameters with `get_object()`, which aborts the
    process (a failed `CHECK`) on a non-object. It also does not check that the
    emulator was created, so a bad configuration can lead to a member call
    through the null handle: undefined behaviour in C++, which under WebAssembly
    need not even trap. The model keeps both apart: an outcome is the JSON text
    written back, `Aborted`, or `Undefined`, about which nothing is promised. */
module Emscripten {
  import opened Wrappers
  import opened Bits
  import opened Decimal
  import opened Json
  import opened Foreign
  import opened EmulatorState
  import opened Responses
  import opened TransactionDispatch

  /** `TransactionEmulationParams`: an empty `rand_seed` means none. */
  datatype Params = Params(utime: Uint32, lt: Uint64, randSeedHex: Option<string>, ignoreChksig: bool)

  datatype Outcome = Output(json: Json) | Aborted | Undefined

  const ParamsError: string := "Can't decode other params"
  const SetParamsError: string := "Can't set params"

  /** The fixed failure objects `{"fail":true,"message":...}`. */
  function Fail(message: string): Json
  {
    JObject([("fail", JBool(true)), ("message", JString(message))])
  }

  /** What a parameter object must say for `DecodeParams` to yield `p`: `utime` a
      JSON number spelling a 32-bit value, `lt` a string spelling a 64-bit value
      (both in canonical decimal), `rand_seed` absent, empty or the seed, and
      `ignore_chksig` a boolean. */
  predicate ParamsFieldsAgree(fields: seq<(string, Json)>, p: Params)
  {
    var obj := JObject(fields);
    && Lookup(obj, "utime") == Some(JNumber(Decimal.Decimal(p.utime)))
    && Lookup(obj, "lt") == Some(JString(Decimal.Decimal(p.lt)))
    && (match p.randSeedHex
        case None => Lookup(obj, "rand_seed") == None || Lookup(obj, "rand_seed") == Some(JString(""))
        case Some(hex) => hex != "" && Lookup(obj, "rand_seed") == Some(JString(hex)))
    && Lookup(obj, "ignore_chksig") == Some(JBool(p.ignoreChksig))
  }

  /** `utime`: a JSON number read by `to_integer_safe<uint32>`. */
  function UtimeField(fields: seq<(string, Json)>): (r: Option<Uint32>)
    ensures r.Some? ==> Lookup(JObject(fields), "utime") == Some(JNumber(Decimal.Decimal(r.value)))
  {
    var field :- GetField(fields, "utime", KindNumber, false).ToOption();
    var n :- ParseUnsigned(field.text, Two32);
    ParseUnsignedSpec(field.text, Two32, n);
    Some(n)
  }

  /** `lt`: a JSON string read by `to_integer_safe<uint64>`. */
  function LtField(fields: seq<(string, Json)>): (r: Option<Uint64>)
    ensures r.Some? ==> Lookup(JObject(fields), "lt") == Some(JString(Decimal.Decimal(r.value)))
  {
    var field :- GetField(fields, "lt", KindString, false).ToOption();
    var n :- ParseUnsigned(field.s, Two64);
    ParseUnsignedSpec(field.s, Two64, n);
    Some(n)
  }

  /** `rand_seed`: an optional string; absent and empty both mean no seed. */
  function SeedField(fields: seq<(string, Json)>): (r: Option<Option<string>>)
    ensures r == Some(None) <==> Lookup(JObject(fields), "rand_seed") == None || Lookup(JObject(fields), "rand_seed") == Some(JString(""))
    ensures r.Some? && r.value.Some? ==> r.value.value != "" && Lookup(JObject(fields), "rand_seed") == Some(JString(r.value.value))
  {
    var seed :- GetStringField(fields, "rand_seed", true).ToOption();
    Some(if |seed| > 0 then Some(seed) else None)
  }

  /** `ignore_chksig`: a required boolean. */
  function IgnoreChksigField(fields: seq<(string, Json)>): (r: Option<bool>)
    ensures r.Some? <==> Lookup(JObject(fields), "ignore_chksig").Some? && Lookup(JObject(fields), "ignore_chksig").value.JBool?
    ensures r.Some? ==> Lookup(JObject(fields), "ignore_chksig") == Some(JBool(r.value))
  {
    GetBoolField(fields, "ignore_chksig").ToOption()
  }

  /** `decode_transaction_emulation_params` on a parsed object. Its error texts are
      discarded by the caller, so only success and failure are kept. */
  function DecodeParams(fields: seq<(string, Json)>): (r: Option<Params>)
    ensures r.Some? ==> ParamsFieldsAgree(fields, r.value)
  {
    var utime :- UtimeField(fields);
    var lt :- LtField(fields);
    var seed :- SeedField(fields);
    var ignore :- IgnoreChksigField(fields);
    Some(Params(utime, lt, seed, ignore))
  }

  /** Decoding accepts exactly the objects that spell some parameters, and yields those. */
  lemma DecodeParamsSpec(fields: seq<(string, Json)>, p: Params)
    ensures DecodeParams(fields) == Some(p) <==> ParamsFieldsAgree(fields, p)
  {
    if ParamsFieldsAgree(fields, p) {
      UtimeFieldReads(fields, p.utime);
      LtFieldReads(fields, p.lt);
      SeedFieldReads(fields, p.randSeedHex);
    }
  }

  lemma UtimeFieldReads(fields: seq<(string, Json)>, n: Uint32)
    requires Lookup(JObject(fields), "utime") == Some(JNumber(Decimal.Decimal(n)))
    ensures UtimeField(fields) == Some(n)
  {
    ParseUnsignedSpec(Decimal.Decimal(n), Two32, n);
    assert GetField(fields, "utime", KindNumber, false) == Ok(JNumber(Decimal.Decimal(n)));
  }

  lemma LtFieldReads(fields: seq<(string, Json)>, n: Uint64)
    requires Lookup(JObject(fields), "lt") == Some(JString(Decimal.Decimal(n)))
    ensures LtField(fields) == Some(n)
  {
    ParseUnsignedSpec(Decimal.Decimal(n), Two64, n);
    assert GetField(fields, "lt", KindString, false) == Ok(JString(Decimal.Decimal(n)));
  }

  lemma SeedFieldReads(fields: seq<(string, Json)>, seed: Option<string>)
    requires match seed
      case None => Lookup(JObject(fields), "rand_seed") == None || Lookup(JObject(fields), "rand_seed") == Some(JString(""))
      case Some(hex) => hex != "" && Lookup(JObject(fields), "rand_seed") == Some(JString(hex))
    ensures SeedField(fields) == Some(seed)
  {
  }

  /** Integers are read only in their canonical spelling: a `utime` or `lt` with a
      leading zero, a sign, a non-digit or no digits at all makes the whole
      parameter object fail to decode. */
  lemma NonCanonicalIntegerRefused(fields: seq<(string, Json)>, s: string)
    requires !Canonical(s)
    requires Lookup(JObject(fields), "utime") == Some(JNumber(s)) || Lookup(JObject(fields), "lt") == Some(JString(s))
    ensures DecodeParams(fields) == None
  {
    if Lookup(JObject(fields), "utime") == Some(JNumber(s)) {
      assert GetField(fields, "utime", KindNumber, false) == Ok(JNumber(s));
      assert UtimeField(fields) == None;
    } else if UtimeField(fields).Some? {
      assert GetField(fields, "lt", KindString, false) == Ok(JString(s));
      assert LtField(fields) == None;
    }
  }

  /** Step one of `emulate`: parse and decode the parameters. `None` is the abort of
      reading a non-object as an object. */
  function ParamsStep(codec: Codec, paramsText: string): (r: Option<Option<Params>>)
    ensures r.None? <==> codec.jsonDecode(paramsText).Ok? && !codec.jsonDecode(paramsText).value.JObject?
    ensures codec.jsonDecode(paramsText).Err? ==> r == Some(None)
    ensures r.Some? && r.value.Some? ==>
      codec.jsonDecode(paramsText).Ok? && ParamsFieldsAgree(codec.jsonDecode(paramsText).value.fields, r.value.value)
    ensures codec.jsonDecode(paramsText).Ok? && codec.jsonDecode(paramsText).value.JObject? ==>
      r == Some(DecodeParams(codec.jsonDecode(paramsText).value.fields))
  {
    match codec.jsonDecode(paramsText)
    case Err(_) => Some(None)
    case Ok(j) => if j.JObject? then Some(DecodeParams(j.fields)) else None
  }

  // ----- setters called on a handle that may be null -----

  /** A setter call on the handle returned by `transaction_emulator_create`, which
      is null when the configuration did not decode: it either returns, or
      reaches a member access through the null handle, which is undefined
      behaviour. */
  datatype Call = Returned(ok: bool, handle: Option<Emulator>) | NullCall

  /** `transaction_emulator_set_rand_seed`: the length and hex checks come before
      the handle is touched. */
  function SeedCall(h: Option<Emulator>, hex: string): (r: Call)
    ensures h.Some? ==> r == Returned(SetRandSeed(h.value, hex).ok, Some(SetRandSeed(h.value, hex).emulator))
    ensures h.None? ==> (r.NullCall? <==> |hex| == 64 && HexDecode(hex).Some?)
    ensures r.Returned? && h.None? ==> !r.ok && r.handle.None?
  {
    match h
    case Some(e) => var s := SetRandSeed(e, hex); Returned(s.ok, Some(s.emulator))
    case None => if |hex| == 64 && HexDecode(hex).Some? then NullCall else Returned(false, None)
  }

  /** `transaction_emulator_set_libs`: a null `libs` does not touch the handle;
      decoding comes before the handle is touched. */
  function LibsCall(codec: Codec, h: Option<Emulator>, libs: Option<string>): (r: Call)
    ensures h.Some? ==> r == Returned(SetLibs(codec, h.value, libs).ok, Some(SetLibs(codec, h.value, libs).emulator))
    ensures h.None? ==> (r.NullCall? <==> libs.Some? && CellFromBase64(codec, libs.value).Ok?)
    ensures r.Returned? && h.None? ==> r.handle.None? && (r.ok <==> libs.None?)
  {
    match h
    case Some(e) => var s := SetLibs(codec, e, libs); Returned(s.ok, Some(s.emulator))
    case None =>
      if libs.None? then Returned(true, None)
      else if CellFromBase64(codec, libs.value).Ok? then NullCall
      else Returned(false, None)
  }

  /** The handle after `set_lt`, `set_unixtime` and `set_ignore_chksig`, which all succeed. */
  function ApplyPlain(e: Emulator, p: Params): (r: Emulator)
    ensures r.lt == Some(p.lt) && r.unixtime == Some(p.utime) && r.ignoreChksig == Some(p.ignoreChksig)
    ensures r.(lt := e.lt, unixtime := e.unixtime, ignoreChksig := e.ignoreChksig) == e
  {
    SetIgnoreChksig(SetUnixtime(SetLt(e, p.lt).emulator, p.utime).emulator, p.ignoreChksig).emulator
  }

  /** The response object: the transaction response inline, then the captured log. */
  function OutputJson(response: TxResponse, logs: string): (j: Json)
    ensures Keys(j) == ["output", "logs"]
    ensures Lookup(j, "output") == Some(TxResponseJson(response))
    ensures Lookup(j, "logs") == Some(JString(logs))
  {
    FirstField([("output", TxResponseJson(response)), ("logs", JString(logs))], "logs", 1);
    JObject([("output", TxResponseJson(response)), ("logs", JString(logs))])
  }

  /** The handle after the setters `emulate` calls: ready, refused by a setter
      ("Can't set params"), or undefined behaviour on the null handle. */
  datatype Configured = Ready(e: Emulator) | Refused | NullAccess

  /** `transaction_emulator_create`, then the seed setter (only when a seed was
      given), then `set_libs`, `set_lt`, `set_unixtime` and `set_ignore_chksig`
      in a short-circuit chain whose last operand is the seed setter's answer. */
  function Configure(codec: Codec, tlb: Tlb, configText: string, libs: Option<string>, verbosity: int, p: Params)
    : (r: Configured)
    ensures r.Ready? ==> r.e.lt == Some(p.lt) && r.e.unixtime == Some(p.utime) && r.e.ignoreChksig == Some(p.ignoreChksig)
    ensures r.Ready? ==>
      && DecodeConfig(codec, tlb, configText).Ok?
      && r.e.config == DecodeConfig(codec, tlb, configText).value
      && r.e.vmLogVerbosity == verbosity
      && (libs.None? ==> r.e.libs.None?)
      && (libs.Some? ==> CellFromBase64(codec, libs.value).Ok? && r.e.libs == Some(CellFromBase64(codec, libs.value).value))
  {
    var h := Create(codec, tlb, configText, verbosity);
    var seed := if p.randSeedHex.Some? then SeedCall(h, p.randSeedHex.value) else Returned(true, h);
    if seed.NullCall? then NullAccess
    else
      var lib := LibsCall(codec, seed.handle, libs);
      if lib.NullCall? then NullAccess
      else if !lib.ok then Refused
      else if lib.handle.None? then NullAccess
      else if !seed.ok then Refused
      else Ready(ApplyPlain(lib.handle.value, p))
  }

  /** `emulate`, with the wall clock as `now` and the text the logger captured as `logs`. */
  function Emulate(codec: Codec, tlb: Tlb, engine: TxEngine, now: Uint32, logs: string,
                   configText: string, libs: Option<string>, verbosity: int,
                   shardAccountText: string, messageText: string, paramsText: string): (r: Outcome)
    ensures ParamsStep(codec, paramsText).None? ==> r == Aborted
    ensures ParamsStep(codec, paramsText) == Some(None) ==> r == Output(Fail(ParamsError))
    ensures ParamsStep(codec, paramsText).Some? && ParamsStep(codec, paramsText).value.Some? ==>
      var c := Configure(codec, tlb, configText, libs, verbosity, ParamsStep(codec, paramsText).value.value);
      && (c.NullAccess? <==> r.Undefined?)
      && (c.Refused? ==> r == Output(Fail(SetParamsError)))
      && (c.Ready? ==>
            && r.Output?
            && Keys(r.json) == ["output", "logs"]
            && Lookup(r.json, "logs") == Some(JString(logs))
            && Lookup(r.json, "output") == Some(TxResponseJson(EmulateTransaction(codec, tlb, engine, c.e, now, shardAccountText, messageText))))
  {
    match ParamsStep(codec, paramsText)
    case None => Aborted
    case Some(None) => Output(Fail(ParamsError))
    case Some(Some(p)) =>
      match Configure(codec, tlb, configText, libs, verbosity, p)
      case NullAccess => Undefined
      case Refused => Output(Fail(SetParamsError))
      case Ready(e) =>
        Output(OutputJson(EmulateTransaction(codec, tlb, engine, e, now, shardAccountText, messageText), logs))
  }

  // ----- properties -----

  /** With a decodable configuration the handle is never null, so no call goes
      through a null handle:
      the handle is refused exactly when the seed or the libraries are rejected,
      and otherwise holds the configuration and every decoded parameter. */
  lemma ValidConfigConfigures(codec: Codec, tlb: Tlb, configText: string, libs: Option<string>, verbosity: int, p: Params)
    requires DecodeConfig(codec, tlb, configText).Ok?
    ensures
      var c := Configure(codec, tlb, configText, libs, verbosity, p);
      var e0 := Create(codec, tlb, configText, verbosity).value;
      var seedOk := p.randSeedHex.None? || SetRandSeed(e0, p.randSeedHex.value).ok;
      var libsOk := SetLibs(codec, e0, libs).ok;
      && !c.NullAccess?
      && (c.Ready? <==> seedOk && libsOk)
      && (c.Ready? ==>
            && c.e.config == DecodeConfig(codec, tlb, configText).value
            && c.e.libs == SetLibs(codec, e0, libs).emulator.libs
            && c.e.vmLogVerbosity == verbosity
            && (p.randSeedHex.Some? ==> c.e.randSeed.Some? && HexDecode(p.randSeedHex.value) == Some(c.e.randSeed.value))
            && (p.randSeedHex.None? ==> c.e.randSeed.None?))
  {
    var e0 := Create(codec, tlb, configText, verbosity).value;
    if p.randSeedHex.Some? {
      var s := SetRandSeed(e0, p.randSeedHex.value);
      assert s.emulator.libs == e0.libs;
      assert SetLibs(codec, s.emulator, libs).ok == SetLibs(codec, e0, libs).ok;
    }
  }

  /** Without a usable configuration the handle is null. An accepted seed, decodable
      libraries, or any call reaching `set_lt` then accesses it (undefined
      behaviour); only a rejected seed together with undecodable libraries avoids
      that and yields "Can't set params". */
  lemma NullHandle(codec: Codec, tlb: Tlb, configText: string, libs: Option<string>, verbosity: int, p: Params)
    requires DecodeConfig(codec, tlb, configText).Err?
    ensures
      var c := Configure(codec, tlb, configText, libs, verbosity, p);
      var seedAccepted := p.randSeedHex.Some? && |p.randSeedHex.value| == 64 && HexDecode(p.randSeedHex.value).Some?;
      var libsDecode := libs.Some? && CellFromBase64(codec, libs.value).Ok?;
      && !c.Ready?
      && (c.Refused? <==> !seedAccepted && libs.Some? && !libsDecode)
  {
  }
}
