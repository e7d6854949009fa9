# TON emulator boundary layer in Dafny

This project models the C-callable boundary of the TON contract emulator.
That boundary is the `emulator-extern` interface plus its WebAssembly driver.
It turns text requests (base64 bags of cells, JSON stacks, JSON parameters) into calls on a transaction or get-method engine.
It turns the engine's answers back into JSON responses.

The model covers four parts:

- **Stack-entry codec** (`StackCodec`): `from_emulator_api` decodes a JSON value into a TVM stack entry, `StackEntryJsonable::store` / `StackJsonable::store` encode it back.
  - An entry is `cell`, `cell_slice`, `number` (257-bit signed), `tuple` or `null`.
  - Every other VM value is encoded as the sentinel type `"UNSUPPORTED STACK ENTRY TYPE"`, which the decoder refuses.
- **Transaction dispatch** (`TransactionDispatch`, `Responses`): `transaction_emulator_emulate_transaction`.
  - It checks the message and the shard account in a fixed order.
  - It reads the address from the message's destination when the account is `account_none`, otherwise from the account's own record.
  - It computes the `is_special` flag, runs the engine and answers with one of three fixed response shapes.
- **Emulator handle** (`EmulatorState`): `decode_config`, `transaction_emulator_create`, the setters and `emulator_set_verbosity_level`.
- **Get-method and WebAssembly driver** (`GetMethod`, `Emscripten`):
  - `tvm_emulator_run_get_method`;
  - `decode_transaction_emulation_params`;
  - `emulate`: a parameter decoder, then a short-circuit chain of setters, then a wrapped output.

Modelling choices:

- JSON is a tree (`Json.Json`). A number keeps its source text, as td's parser does. An object keeps its fields in order, and td's accessors read the first field with a given name.
- Foreign primitives are fields of function type in two records. They include base64, bag-of-cells (de)serialisation, 257-bit decimal text, JSON text parsing, the TL-B unpackers and configuration unpacking. Because of this, every statement holds for every implementation.
  - `Foreign.Codec` holds the codec primitives.
  - `Foreign.Tlb` holds the block-layout unpackers.
  - `Foreign.Lawful` states the three laws the round trips rely on: base64 decodes what it encodes, a serialised bag of cells deserialises to its root, and decimal text of a 257-bit integer parses back.
- Cells are concrete: bits and references. A cell slice is a window on a cell. Encoding a slice builds a new cell from the window.
- The engines (`emulate_transaction`, `run_get_method`), the wall clock (`std::time`) and the captured log are parameters.
- Process aborts are modelled explicitly (`GetMethod.Reply.Aborted`, `Emscripten.Outcome.Aborted`). An abort comes from a failed `CHECK`: a cell that does not serialise, or `get_object()` on a non-object.
- `transaction_emulator_create` returns a null handle for a bad configuration, and `emulate` calls setters on it without a check. A member access through that null pointer is undefined behaviour in C++, and under WebAssembly it need not trap. The model records it as its own outcome (`Emscripten.Outcome.Undefined`) and promises nothing about what happens then.

## Model

| member | source | states |
|---|---|---|
| Json.GetField | emulator/emulator-extern.cpp:20-20 | td's `get_json_object_field` reads the first field of that name. It succeeds iff that field has the requested JSON type, or iff the field is absent and optional (then it reads as null). |
| Json.GetStringField | emulator/emulator-extern.cpp:17-17 | The string accessor succeeds iff the first field of that name is a string, or the field is absent and optional (then it reads as `""`). |
| Json.GetBoolField | emulator/emulator-emscripten.cpp:37-37 | The boolean accessor succeeds iff the first field of that name is a boolean, and returns it. |
| Decimal.ParseUnsignedSpec | emulator/emulator-emscripten.cpp:25-29 | `to_integer_safe<uintN>` yields `n` iff the text is exactly the canonical decimal of `n` and `n` is below the bound `2^N`: no sign, no leading zero, no overflow. |
| Decimal.SignedRoundTrip | emulator/emulator-extern.cpp:154-163 | The signed decimal written for `vm_exit_code` parses back to the same integer. |
| Bits.HexNibbles | emulator/emulator-extern.cpp:316-320 | Hex text decodes iff every character is a hex digit of either case. Character i gives bits 4i to 4i+4, the four-bit value of that digit: its position in "0123456789abcdef" or "0123456789ABCDEF". |
| Bits.HexDecode | emulator/emulator-extern.cpp:316-320 | `hex_decode` into a bit array succeeds iff the text has an even length and only hex digits, and then holds each digit's four bits in order. |
| Bits.HexRoundTrip | emulator/emulator-extern.cpp:316-323 | A bit string of whole bytes written as hex decodes back to itself. |
| Bits.UIntBitsValue | emulator/emulator-extern.cpp:280-282 | A value below `2^w`, stored big-endian in `w` bits (`store_long`), reads back as itself. |
| Cells.MaterializeFull | emulator/emulator-extern.cpp:26-33 | A slice loaded over a whole cell rebuilds that cell. Rebuilding a slice and loading it again gives back the slice iff it spanned a whole cell. |
| StackCodec.Decode | emulator/emulator-extern.cpp:12-56 | A non-object is refused with "Stack entry of object type expected". A missing or non-string `type` is refused. Otherwise the entry is decoded by its tag. A decoded entry has no opaque parts and only whole-cell slices. |
| StackCodec.DecodeTyped | emulator/emulator-extern.cpp:17-55 | A tag outside {cell, cell_slice, number, tuple, null} fails with "Unsupported type: <tag>". `null` succeeds whatever `value` holds. A decoded entry carries the tag it was read under. |
| StackCodec.DecodeList | emulator/emulator-extern.cpp:42-48 | A list decodes iff every element decodes. The result has the same length and order. A failure carries the error of some failing element, with no partial result. |
| StackCodec.DecodeTuple | emulator/emulator-extern.cpp:42-50 | A tuple decodes iff its `value` is an array whose elements all decode. The decoded tuple lists them in order. |
| StackCodec.DecodeCell | emulator/emulator-extern.cpp:19-33 | A `cell` or `cell_slice` object, with fields in any order and any extra fields, needs a string `value`. That text must decode from base64 and then as a bag of cells, each failure with its own error. The cell becomes the entry, or the whole-cell slice over it. |
| StackCodec.DecodeNumber | emulator/emulator-extern.cpp:34-41 | A `number` needs a string `value`. Text the integer parser rejects fails with "Error parsing string to int256". Accepted text gives that integer. |
| StackCodec.Encode | emulator/emulator-extern.cpp:64-117 | Encoding is total on serialisable entries. The result is always an object with keys `type` then `value`, and `type` names the entry's kind. `value` is null exactly for null and unsupported entries. |
| StackCodec.RoundTripTuple | emulator/emulator-extern.cpp:92-103 | A tuple, printed as `type` "tuple" with its elements encoded one by one into an array, decodes back to the tuple of those elements with slices made whole. An unsupported value anywhere inside makes it fail with the sentinel's error. |
| StackCodec.StackRoundTrip | emulator/emulator-extern.cpp:122-131 | A stack printed as an array of encoded entries decodes, element by element and in order, back to the stack with slices made whole. An unsupported entry makes it fail with the sentinel's error. |
| StackCodec.RoundTripInt | emulator/emulator-extern.cpp:34-41 | An integer entry encoded and decoded is itself, given a lawful decimal codec. |
| StackCodec.RoundTripCellEntry | emulator/emulator-extern.cpp:19-24 | A cell entry encoded and decoded is itself, given a lawful base64 and bag-of-cells codec. |
| StackCodec.RoundTripSlice | emulator/emulator-extern.cpp:26-33 | A slice entry comes back as the whole-cell slice over the cell built from its window. |
| StackCodec.RoundTrip | emulator/emulator-extern.cpp:12-117 | For every serialisable entry, decode(encode(e)) is `e` with slices made whole. An entry holding an unsupported value fails with "Unsupported type: UNSUPPORTED STACK ENTRY TYPE". |
| StackCodec.RoundTripList | emulator/emulator-extern.cpp:42-48 | The same round trip holds for whole lists, element for element. |
| StackCodec.RoundTripExact | emulator/emulator-extern.cpp:19-53 | Entries built from cells, whole-cell slices, integers, null and tuples of these round-trip exactly. |
| StackCodec.DecodeEncodeDecode | emulator/emulator-extern.cpp:12-117 | Whatever the decoder yields is encoded and decoded back to the same entry. |
| Responses.TxResponseJson | emulator/emulator-extern.cpp:134-163 | The three response shapes list exactly their fixed keys, in order. `success` is true only for the success shape. The not-accepted shape carries the fixed text "External message not accepted by smart contract" as `error`, and the error shape carries its message. |
| Responses.TxResponseRoundTrip | emulator/emulator-extern.cpp:134-163 | Every response is read back as the outcome it was built from. The reader picks the shape by the `success` flag and the presence of `vm_exit_code`, and accepts a not-accepted shape only with its fixed error text. |
| EmulatorState.DecodeConfig | emulator/emulator-extern.cpp:167-182 | Configuration text decodes iff base64, then the bag of cells, then unpacking all succeed. Each failure carries its own prefix. |
| EmulatorState.Create | emulator/emulator-extern.cpp:184-192 | A handle exists iff the configuration decodes. It holds that configuration, no libraries and no seed. |
| EmulatorState.SetUnixtime | emulator/emulator-extern.cpp:292-298 | Always succeeds. It sets the time and nothing else. |
| EmulatorState.SetLt | emulator/emulator-extern.cpp:300-306 | Always succeeds. It sets the logical time and nothing else. |
| EmulatorState.SetRandSeed | emulator/emulator-extern.cpp:308-326 | Succeeds iff the text is exactly 64 hex digits. On success the seed is the decoded bits and nothing else changes. On failure nothing changes. |
| EmulatorState.RandSeedRoundTrip | emulator/emulator-extern.cpp:308-326 | Setting a seed from its own hex text succeeds and stores exactly that seed. |
| EmulatorState.SetIgnoreChksig | emulator/emulator-extern.cpp:328-334 | Always succeeds. It sets the signature switch and nothing else. |
| EmulatorState.SetConfig | emulator/emulator-extern.cpp:336-348 | Succeeds iff the configuration decodes. It then replaces only the configuration; on failure nothing changes. |
| EmulatorState.SetConfigIdempotent | emulator/emulator-extern.cpp:336-348 | Setting the same configuration twice equals setting it once. |
| EmulatorState.SetLibs | emulator/emulator-extern.cpp:350-368 | A null libraries pointer succeeds and changes nothing. Otherwise it succeeds iff the text decodes to a cell, which then becomes the libraries. |
| EmulatorState.SetVerbosityLevel | emulator/emulator-extern.cpp:374-380 | A level is accepted iff `0 <= level <= NEVER`. The process level becomes `FATAL + level`; a refused level leaves it unchanged. |
| TransactionDispatch.DecodeInputs | emulator/emulator-extern.cpp:197-221 | Message base64, message boc, shard-account base64, shard-account boc and `ShardAccount` unpacking are checked in that order. The first failure is reported with its own prefix, and a failed unpacking with "Can't unpack shard account cell". |
| TransactionDispatch.AddressField | emulator/emulator-extern.cpp:223-248 | For `account_none`, the address comes from the destination of an inbound external or an inbound internal message, each with its own unpack error. Other kinds fail with "Only ext in and int message are supported". An existing account uses its own `addr`. |
| TransactionDispatch.ResolveAddress | emulator/emulator-extern.cpp:249-253 | The address field's failure is passed on. A field that parses as a standard address gives exactly that address, and one that does not gives "Can't extract account address". |
| TransactionDispatch.PrepareAccount | emulator/emulator-extern.cpp:255-260 | Each earlier failure is passed on. When the inputs decode, the address resolves and the account unpacks, the engine is reached. The account given to it has the resolved address and the current time. It is special iff it is on the masterchain and listed as special in the configuration. It is unpacked with that flag, else "Can't unpack shard account". |
| TransactionDispatch.ShardAccountPacking | emulator/emulator-extern.cpp:280-282 | The new shard account is a reference to the total state, then the 256-bit last transaction hash, then the 64-bit logical time. All three read back. |
| TransactionDispatch.Classify | emulator/emulator-extern.cpp:265-289 | A declined external message gives the not-accepted shape with the engine's log and exit code. A success gives the success shape iff the transaction and the new shard account both serialise; it then carries their texts and the log. Otherwise the first serialisation failure gives its own error ("Can't serialize Transaction to boc" before "Can't serialize ShardAccount to boc"). |
| TransactionDispatch.EmulateTransaction | emulator/emulator-extern.cpp:194-290 | Any failure before the engine runs is an error response with that step's message. An engine error is prefixed "Emulate transaction failed: ". Otherwise the outcome is classified. |
| TransactionDispatch.AddressFromExternalMessage | emulator/emulator-extern.cpp:225-231 | A new account with an inbound external message takes the message's destination. |
| TransactionDispatch.AddressFromInternalMessage | emulator/emulator-extern.cpp:233-238 | A new account with an inbound internal message takes the message's destination. |
| TransactionDispatch.AddressOfExistingAccount | emulator/emulator-extern.cpp:242-253 | An existing account whose own `addr` parses as standard address b resolves to b, whatever the message. |
| TransactionDispatch.UnsupportedMessageRefused | emulator/emulator-extern.cpp:239-241 | A new account with any other message kind gets the unsupported-message error response. |
| TransactionDispatch.MessageCheckedFirst | emulator/emulator-extern.cpp:197-200 | Bad message base64 is reported before anything else, as the bare error shape. |
| TransactionDispatch.SuccessDecodesBack | emulator/emulator-extern.cpp:273-289 | Given a lawful codec, the transaction text of a success decodes to the engine's transaction. The shard-account text decodes to the packed new state. |
| GetMethod.DecodeStackRequest | emulator/emulator-extern.cpp:480-496 | Undecodable JSON fails with "Couldn't decode stack json: …" and a non-array with "Stack of type array expected". Otherwise the stack decodes iff every element does, in order. A failure carries "Error parsing stack: " and the error of the first failing element. |
| GetMethod.MissingLibraryJson | emulator/emulator-extern.cpp:509-513 | `missing_library` is null iff no library is reported. Otherwise it is hex text that decodes to the library hash. |
| GetMethod.GetMethodJson | emulator/emulator-extern.cpp:502-514 | The reply lists `success`, `stack`, `gas_used`, `vm_exit_code`, `vm_log` and `missing_library`, in that order, and `success` is true. |
| GetMethod.RunGetMethod | emulator/emulator-extern.cpp:479-518 | A request that does not decode gets the error shape. Otherwise the engine runs on the decoded stack. The process aborts exactly when a cell of the resulting stack cannot be serialised. |
| GetMethod.GetMethodRoundTrip | emulator/emulator-extern.cpp:502-514 | For a lawful codec and a result stack without unsupported entries, a reply reads back as the run it reports. The reader checks `success` is true, then reads the stack (slices made whole), gas as a 64-bit decimal, the exit code, the log and the missing library. |
| GetMethod.PrintedStackAccepted | emulator/emulator-extern.cpp:488-496 | A stack printed by the emulator is accepted back as a request, entry for entry. |
| GetMethod.UnknownEntryRefused | emulator/emulator-extern.cpp:490-494 | An element anywhere in the request that is an object whose `type` is not a known tag, whatever its other fields, makes the whole request fail. The reply is then the error shape with `success` false. |
| Emscripten.UtimeField | emulator/emulator-emscripten.cpp:24-26 | `utime` must be a JSON number spelling a 32-bit value in canonical decimal. |
| Emscripten.LtField | emulator/emulator-emscripten.cpp:28-30 | `lt` must be a JSON string spelling a 64-bit value in canonical decimal. |
| Emscripten.SeedField | emulator/emulator-emscripten.cpp:32-35 | An absent or empty `rand_seed` means no seed. A non-empty string is kept verbatim. |
| Emscripten.IgnoreChksigField | emulator/emulator-emscripten.cpp:37-38 | `ignore_chksig` must be a boolean. |
| Emscripten.DecodeParams | emulator/emulator-emscripten.cpp:17-41 | Decoded parameters agree with the object field by field. |
| Emscripten.DecodeParamsSpec | emulator/emulator-emscripten.cpp:17-41 | Decoding yields `p` iff the object spells `p` field by field. |
| Emscripten.NonCanonicalIntegerRefused | emulator/emulator-emscripten.cpp:24-30 | A `utime` or `lt` whose text is not canonical decimal (a leading zero, a sign, a non-digit, no digits) makes the parameters fail to decode. |
| Emscripten.ParamsStep | emulator/emulator-emscripten.cpp:20-22 | Unparsable parameter text is a decoding failure, which `emulate` answers with "Can't decode other params". A parsed object goes on to field decoding. A parsed value that is not an object aborts in `get_object()`. |
| Emscripten.SeedCall | emulator/emulator-emscripten.cpp:62-65 | The seed setter on a live handle is the handle's setter. On the null handle it returns false for a rejected seed. An accepted one reaches the null handle, which is undefined behaviour. |
| Emscripten.LibsCall | emulator/emulator-emscripten.cpp:67-67 | The libraries setter on a live handle is the handle's setter. On the null handle it succeeds for null libraries and returns false for undecodable ones. Decodable ones reach the null handle, which is undefined behaviour. |
| Emscripten.ApplyPlain | emulator/emulator-emscripten.cpp:68-70 | `set_lt`, `set_unixtime` and `set_ignore_chksig` set exactly those three fields. |
| Emscripten.Configure | emulator/emulator-emscripten.cpp:57-75 | The creation and setter chain of `emulate`. When it completes, the handle holds the decoded configuration, the given log verbosity, and the given libraries' cell (or none when none were given). It also holds the decoded `lt`, `utime` and `ignore_chksig`. The full case analysis is in `ValidConfigConfigures` and `NullHandle`. |
| Emscripten.Emulate | emulator/emulator-emscripten.cpp:45-92 | Unparsable or undecodable parameters give `{"fail":true,"message":"Can't decode other params"}`, and a non-object aborts. A refused setter gives "Can't set params", and a setter reaching the null handle is undefined behaviour. Otherwise `output` is the transaction response and `logs` the captured log. |
| Emscripten.ValidConfigConfigures | emulator/emulator-emscripten.cpp:59-75 | With a decodable configuration no call reaches a null handle. The handle is refused iff the given seed or the libraries are rejected. Otherwise it holds the configuration, the libraries `set_libs` installed, the given verbosity, the decoded seed and every parameter. |
| Emscripten.NullHandle | emulator/emulator-emscripten.cpp:59-75 | With an undecodable configuration the run never reaches the engine. It answers "Can't set params" only if the seed is rejected or absent and the libraries are given but undecodable. Otherwise a setter reaches the null handle, which is undefined behaviour. |

## Left out

- The RocksDB wrappers (`tddb/td/db/*`): thin I/O over a library that is not shown.
- `StringLog.h`, logging side effects and `SET_VERBOSITY_LEVEL(DEBUG)` in `emulate`: the captured log is a parameter, and the process log level is modelled only through `EmulatorState.SetVerbosityLevel`.
- `transaction-emulator-main.cpp`: command-line glue that repeats `emulate`.
- `tvm_emulator_create`, `tvm_emulator_set_libraries`, `tvm_emulator_set_c7` and `tvm_emulator_set_gas_limit`: they configure the get-method engine, which is a parameter here. The engine's state is the opaque `S` of `GetMethod.RunGetMethod`.
- Memory and FFI: `strdup`, heap strings, `transaction_emulator_destroy` and handle lifetime are not modelled.
- The `JsonRaw` embedding of the transaction response in `emulate`'s output, and of a tuple's array in its entry, is modelled as nesting the JSON tree. Textual JSON is not modelled.
- The rendering of a carried `td::Status` (its brackets and error code) in composed error messages: a carried error is its message text.
- The capacity limits of cells (1023 bits, 4 references). Finalising a cell built from a slice cannot fail in the model.
- Cells.MaterializeFull: a cell is ordinary bits and references only. Exotic cells (library, pruned-branch, Merkle proof and update), their special flag and cell levels are not modelled. `std_boc_deserialize` and `load_cell_slice` treat these differently, and the exact round trips hold only for ordinary cells.
- StackCodec.RoundTripExact and StackCodec.DecodeEncodeDecode: they are stated for ordinary cells, for the same reason.
- Json.GetStringField: td's accessor also accepts a JSON number and returns its text. The model accepts only strings, so a numeric `type` or `rand_seed` is refused.
- StackCodec.Encode: requires every cell inside to serialise. The source aborts (`CHECK`, `move_as_ok`) otherwise. `GetMethod.RunGetMethod` models that abort as `Aborted`.
- TransactionDispatch.Classify: the engine's outcome is trusted to be one of the two shapes; a `dynamic_cast` on any other result type is not modelled.
- The integer parser `dec_string_to_int256` and printer `dec_string` are foreign. A NaN integer value and its printing are not modelled.
- Version differences between the headers and `emulator-extern.cpp`:
  - the header declares a three-argument `transaction_emulator_create`, a three-argument `transaction_emulator_emulate_transaction` and `transaction_emulator_set_verbosity_level`, documented as "0 - never, …, 4 - debug";
  - the `.cpp` defines a two-argument `create`, a four-argument emulation whose `other_params` is unused, and `emulator_set_verbosity_level` whose range check is `[0, NEVER]`;
  - the `.cpp` reads `result.code`, while `GetMethodResult` names the field `vm_exit_code`;
  - the model follows the `.cpp`, and `emulate`'s three-argument call is modelled as that function.
