/** `tvm_emulator_run_get_method` (emulator/emulator-extern.cpp): the request
    is a JSON array of stack entries; the reply is either the bare error shape
    or an object describing the engine's run. The TVM itself is a parameter. */
module GetMethod {
  import opened Wrappers
  import opened Bits
  import opened Decimal
  import opened Json
  import opened Foreign
  import opened StackCodec
  import opened Responses

  const StackJsonPrefix: string := "Couldn't decode stack json: "
  const ArrayExpectedError: string := "Stack of type array expected"
  const StackParsePrefix: string := "Error parsing stack: "

  /** The VM run: a get-method by id over an initial stack, on some emulator state `S`. */
  type GetMethodEngine<!S> = (S, int, seq<StackEntry>) -> GetMethodResult<StackEntry>

  /** What the entry point does: it answers with a JSON reply, or the process
      aborts because a cell of the resulting stack cannot be serialised. */
  datatype Reply = Replied(json: Json) | Aborted

  predicate AllEncodable(codec: Codec, stack: seq<StackEntry>)
  {
    forall i :: 0 <= i < |stack| ==> Encodable(codec, stack[i])
  }

  /** Parsing the request text into the initial stack, or the first failure. */
  function DecodeStackRequest(codec: Codec, raw: string): (r: Result<seq<StackEntry>>)
    ensures codec.jsonDecode(raw).Err? ==> r == Err(StackJsonPrefix + codec.jsonDecode(raw).error)
    ensures codec.jsonDecode(raw).Ok? && !codec.jsonDecode(raw).value.JArray? ==> r == Err(ArrayExpectedError)
    ensures r.Ok? <==>
      && codec.jsonDecode(raw).Ok? && codec.jsonDecode(raw).value.JArray?
      && forall i :: 0 <= i < |codec.jsonDecode(raw).value.elems| ==> Decode(codec, codec.jsonDecode(raw).value.elems[i]).Ok?
    ensures r.Ok? ==>
      var a := codec.jsonDecode(raw).value.elems;
      |r.value| == |a| && forall i :: 0 <= i < |a| ==> Decode(codec, a[i]) == Ok(r.value[i])
    ensures r.Err? && codec.jsonDecode(raw).Ok? && codec.jsonDecode(raw).value.JArray? ==>
      var a := codec.jsonDecode(raw).value.elems;
      exists k :: 0 <= k < |a| && Decode(codec, a[k]).Err? && r.error == StackParsePrefix + Decode(codec, a[k]).error
        && forall i :: 0 <= i < k ==> Decode(codec, a[i]).Ok?
  {
    match codec.jsonDecode(raw)
    case Err(e) => Err(StackJsonPrefix + e)
    case Ok(j) =>
      if !j.JArray? then Err(ArrayExpectedError)
      else DecodeList(codec, j.elems).Prefix(StackParsePrefix)
  }

  /** The `missing_library` field: null, or the library hash in hex. */
  function MissingLibraryJson(id: Option<Bits256>): (j: Json)
    ensures j == JNull <==> id.None?
    ensures id.Some? ==> j.JString? && HexDecode(j.s) == Some(id.value)
  {
    match id
    case None => JNull
    case Some(hash) =>
      HexRoundTrip(hash);
      JString(ToHex(hash))
  }

  /** The reply object's layout, in the order the fields are written. */
  function ReplyObject(stack: Json, gasUsed: Json, exitCode: Json, vmLog: Json, missingLibrary: Json): Json
  {
    JObject([("success", JBool(true)), ("stack", stack), ("gas_used", gasUsed),
             ("vm_exit_code", exitCode), ("vm_log", vmLog), ("missing_library", missingLibrary)])
  }

  /** The reply object for a finished run. */
  function GetMethodJson(codec: Codec, res: GetMethodResult<StackEntry>): (j: Json)
    requires AllEncodable(codec, res.stack)
    ensures Keys(j) == ["success", "stack", "gas_used", "vm_exit_code", "vm_log", "missing_library"]
    ensures Lookup(j, "success") == Some(JBool(true))
  {
    ReplyObject(EncodeStack(codec, res.stack), JString(Decimal.Decimal(res.gasUsed)),
                JNumber(SignedDecimal(res.vmExitCode)), JString(res.vmLog),
                MissingLibraryJson(res.missingLibrary))
  }

  /** `tvm_emulator_run_get_method`. */
  function RunGetMethod<S>(codec: Codec, engine: GetMethodEngine<S>, st: S, methodId: int, raw: string): (r: Reply)
    ensures DecodeStackRequest(codec, raw).Err? ==>
      r == Replied(TxResponseJson(TxError(DecodeStackRequest(codec, raw).error)))
    ensures DecodeStackRequest(codec, raw).Ok? ==>
      var res := engine(st, methodId, DecodeStackRequest(codec, raw).value);
      && (r.Aborted? <==> !AllEncodable(codec, res.stack))
      && (r.Replied? ==> r.json == GetMethodJson(codec, res))
  {
    match DecodeStackRequest(codec, raw)
    case Err(e) => Replied(TxResponseJson(TxError(e)))
    case Ok(stack) =>
      var res := engine(st, methodId, stack);
      if AllEncodable(codec, res.stack) then Replied(GetMethodJson(codec, res)) else Aborted
  }

  // ----- reading a reply back -----

  function StringField(j: Json, name: string): Option<string>
  {
    match Lookup(j, name)
    case Some(JString(s)) => Some(s)
    case _ => None
  }

  function ExitCodeField(j: Json): Option<int>
  {
    match Lookup(j, "vm_exit_code")
    case Some(JNumber(t)) => ParseSigned(t)
    case _ => None
  }

  /** `Some(None)` for null, `Some(Some(hash))` for 64 hex digits, `None` otherwise. */
  function MissingLibraryField(j: Json): Option<Option<Bits256>>
  {
    match Lookup(j, "missing_library")
    case Some(JNull) => Some(None)
    case Some(JString(h)) =>
      (match HexDecode(h)
       case Some(b) => if |b| == 256 then Some(Some(b)) else None
       case None => None)
    case _ => None
  }

  function StackField(codec: Codec, j: Json): Option<seq<StackEntry>>
  {
    match Lookup(j, "stack")
    case Some(JArray(a)) => DecodeList(codec, a).ToOption()
    case _ => None
  }

  /** How a caller reads a successful reply: `success` must be true, then the stack through the entry decoder,
      `gas_used` as a 64-bit decimal, the exit code as a signed decimal, and the
      missing library as 64 hex digits. */
  function ReadGetMethodJson(codec: Codec, j: Json): Option<GetMethodResult<StackEntry>>
  {
    if Lookup(j, "success") != Some(JBool(true)) then None else
    var stack :- StackField(codec, j);
    var gasText :- StringField(j, "gas_used");
    var gas :- ParseUnsigned(gasText, Two64);
    var code :- ExitCodeField(j);
    var log :- StringField(j, "vm_log");
    var missing :- MissingLibraryField(j);
    Some(GetMethodResult(code, stack, gas, log, missing))
  }

  /** Field `i` of the reply object, read by its name. */
  lemma ReplyObjectField(stack: Json, gasUsed: Json, exitCode: Json, vmLog: Json, missingLibrary: Json, i: nat)
    requires i < 6
    ensures
      var j := ReplyObject(stack, gasUsed, exitCode, vmLog, missingLibrary);
      Lookup(j, j.fields[i].0) == Some(j.fields[i].1)
  {
    var j := ReplyObject(stack, gasUsed, exitCode, vmLog, missingLibrary);
    FirstField(j.fields, j.fields[i].0, i);
  }

  /** A reply reads back as the run it reports, its stack entries as the codec
      carries them (slices become the cells they show). */
  lemma GetMethodRoundTrip(codec: Codec, res: GetMethodResult<StackEntry>)
    requires Lawful(codec) && AllEncodable(codec, res.stack) && AllSupported(res.stack)
    ensures ReadGetMethodJson(codec, GetMethodJson(codec, res)) == Some(res.(stack := CanonicalList(res.stack)))
  {
    ReplyStackReadBack(codec, res);
    ReplyScalarsReadBack(EncodeStack(codec, res.stack), res);
    Uint64ReadBack(res.gasUsed);
  }

  lemma ReplyStackReadBack(codec: Codec, res: GetMethodResult<StackEntry>)
    requires Lawful(codec) && AllEncodable(codec, res.stack) && AllSupported(res.stack)
    ensures StackField(codec, GetMethodJson(codec, res)) == Some(CanonicalList(res.stack))
  {
    var stack := EncodeStack(codec, res.stack);
    ReplyObjectField(stack, JString(Decimal.Decimal(res.gasUsed)), JNumber(SignedDecimal(res.vmExitCode)),
                     JString(res.vmLog), MissingLibraryJson(res.missingLibrary), 1);
    assert stack.elems == EncodeList(codec, res.stack);
    RoundTripList(codec, res.stack);
  }

  lemma ReplyScalarsReadBack(stack: Json, res: GetMethodResult<StackEntry>)
    ensures
      var j := ReplyObject(stack, JString(Decimal.Decimal(res.gasUsed)), JNumber(SignedDecimal(res.vmExitCode)),
                           JString(res.vmLog), MissingLibraryJson(res.missingLibrary));
      && StringField(j, "gas_used") == Some(Decimal.Decimal(res.gasUsed))
      && ExitCodeField(j) == Some(res.vmExitCode)
      && StringField(j, "vm_log") == Some(res.vmLog)
      && MissingLibraryField(j) == Some(res.missingLibrary)
  {
    var (gas, code, log, missing) := (JString(Decimal.Decimal(res.gasUsed)),
      JNumber(SignedDecimal(res.vmExitCode)), JString(res.vmLog), MissingLibraryJson(res.missingLibrary));
    var j := ReplyObject(stack, gas, code, log, missing);
    assert StringField(j, "gas_used") == Some(Decimal.Decimal(res.gasUsed)) by {
      ReplyObjectField(stack, gas, code, log, missing, 2);
    }
    assert ExitCodeField(j) == Some(res.vmExitCode) by {
      ReplyObjectField(stack, gas, code, log, missing, 3);
      SignedRoundTrip(res.vmExitCode);
    }
    assert StringField(j, "vm_log") == Some(res.vmLog) by {
      ReplyObjectField(stack, gas, code, log, missing, 4);
    }
    assert Lookup(j, "missing_library") == Some(missing) by {
      ReplyObjectField(stack, gas, code, log, missing, 5);
    }
    MissingLibraryReadBack(j, res.missingLibrary);
  }

  lemma MissingLibraryReadBack(j: Json, id: Option<Bits256>)
    requires Lookup(j, "missing_library") == Some(MissingLibraryJson(id))
    ensures MissingLibraryField(j) == Some(id)
  {
    match id
    case None =>
    case Some(hash) =>
      var h := MissingLibraryJson(id).s;
      assert HexDecode(h) == Some(hash);
  }

  /** A stack the emulator prints is a request it accepts, entry for entry. */
  lemma PrintedStackAccepted(codec: Codec, raw: string, stack: seq<StackEntry>)
    requires Lawful(codec) && AllEncodable(codec, stack) && AllSupported(stack)
    requires codec.jsonDecode(raw) == Ok(EncodeStack(codec, stack))
    ensures DecodeStackRequest(codec, raw) == Ok(CanonicalList(stack))
  {
    RoundTripList(codec, stack);
  }

  /** A request holding an object whose `type` is not a known tag is refused as a
      whole, whatever other fields that object has and wherever it stands. */
  lemma UnknownEntryRefused<S>(codec: Codec, engine: GetMethodEngine<S>, st: S, methodId: int, raw: string, k: nat, ty: string)
    requires codec.jsonDecode(raw).Ok? && codec.jsonDecode(raw).value.JArray?
    requires k < |codec.jsonDecode(raw).value.elems|
    requires
      var x := codec.jsonDecode(raw).value.elems[k];
      x.JObject? && GetStringField(x.fields, "type", false) == Ok(ty) && !IsKnownTag(ty)
    ensures DecodeStackRequest(codec, raw).Err?
    ensures RunGetMethod(codec, engine, st, methodId, raw) == Replied(TxResponseJson(TxError(DecodeStackRequest(codec, raw).error)))
    ensures Lookup(RunGetMethod(codec, engine, st, methodId, raw).json, "success") == Some(JBool(false))
  {
    var a := codec.jsonDecode(raw).value.elems;
    assert Decode(codec, a[k]) == Err(UnsupportedTypeError(ty));
  }
}
