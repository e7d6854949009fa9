/** The collaborators the boundary layer calls but does not implement: base64,
    bag-of-cells (de)serialisation, big-integer text, JSON text, the TL-B
    unpackers of the block library, configuration unpacking and the engines.
    Each is a field of function type, so the model is stated for every
    implementation; `Lawful` collects the few laws the round trips rely on. */
module Foreign {
  import opened Wrappers
  import opened Bits
  import opened Cells
  import Json

  /** The range of a TVM integer: signed 257 bits. */
  predicate IsInt257(n: int)
  {
    -(Two256 as int) <= n < Two256
  }

  type Int257 = n: int | IsInt257(n) witness 0

  datatype Codec = Codec(
    base64Decode: string -> Result<seq<byte>>,    // td::base64_decode
    base64Encode: seq<byte> -> string,            // td::base64_encode
    bocDeserialize: seq<byte> -> Result<Cell>,    // vm::std_boc_deserialize (exactly one root)
    bocSerialize: Cell -> Result<seq<byte>>,      // vm::std_boc_serialize with CRC32C
    decToInt: string -> Option<Int257>,           // td::dec_string_to_int256 (None is a null ref)
    intToDec: Int257 -> string,                   // dec_string
    jsonDecode: string -> Result<Json.Json>       // td::json_decode
  )

  /** The laws the encoders' round trips assume of the codec. */
  ghost predicate Lawful(codec: Codec)
  {
    && (forall b :: codec.base64Decode(codec.base64Encode(b)) == Ok(b))
    && (forall c :: codec.bocSerialize(c).Ok? ==> codec.bocDeserialize(codec.bocSerialize(c).value) == Ok(c))
    && (forall n: Int257 :: codec.decToInt(codec.intToDec(n)) == Some(n))
  }

  /** Cell text: base64 of a serialised bag of cells, as every response carries it. */
  function CellToBase64(codec: Codec, c: Cell): Result<string>
  {
    var boc :- codec.bocSerialize(c);
    Ok(codec.base64Encode(boc))
  }

  function CellFromBase64(codec: Codec, text: string): Result<Cell>
  {
    var bytes :- codec.base64Decode(text);
    codec.bocDeserialize(bytes)
  }

  // ----- block-level records -----

  /** The constructor tag of a message's `CommonMsgInfo` header. */
  datatype MsgInfoTag = IntMsgInfo | ExtInMsgInfo | ExtOutMsgInfo | NoMsgInfo

  /** The constructor tag of an `Account`: `account_none` or an existing account. */
  datatype AccountTag = AccountNone | AccountExists

  /** `ShardAccount`: the account cell plus its last transaction's hash and logical time. */
  datatype ShardAccountRecord = ShardAccountRecord(account: Cell, lastTransHash: Bits256, lastTransLt: Uint64)

  /** A standard address: workchain and 256-bit account id. */
  datatype StdAddress = StdAddress(workchain: int, address: Bits256)

  const MasterchainId: int := -1

  /** `block::Config` as far as this layer reads it: its parameters and the set of
      special (privileged) smart contracts. */
  datatype Config = Config(params: Cell, specialSmartContracts: set<Bits256>)

  /** What `block::Account::unpack` recovers from a shard account. */
  datatype AccountState = AccountState(totalState: Cell, lastTransHash: Bits256, lastTransLt: Uint64)

  /** `block::Account`: an address, the time and privilege it was stamped with, and its state. */
  datatype Account = Account(address: StdAddress, now: nat, isSpecial: bool, state: AccountState)

  datatype Tlb = Tlb(
    msgInfoTag: Cell -> MsgInfoTag,                            // t_CommonMsgInfo.get_tag
    unpackExtInDest: Cell -> Option<CellSlice>,                // unpack ext_in_msg_info, its dest
    unpackIntDest: Cell -> Option<CellSlice>,                  // unpack int_msg_info, its dest
    unpackShardAccount: Cell -> Option<ShardAccountRecord>,    // tlb::unpack ShardAccount
    accountTag: Cell -> AccountTag,                            // t_Account.get_tag
    unpackAccountAddr: Cell -> Option<CellSlice>,              // unpack Account::account, its addr
    extractStdAddress: CellSlice -> Option<StdAddress>,        // t_MsgAddressInt.extract_std_address
    unpackAccount: (StdAddress, Cell, nat, bool) -> Option<AccountState>, // block::Account::unpack
    unpackConfig: Cell -> Result<Config>                       // block::Config::unpack
  )

  // ----- engine outcomes -----

  /** The transaction engine's answer: a transaction and the new account, or an
      external message the contract declined, each with the VM log. */
  datatype EmulationResult =
    | EmulationSuccess(transaction: Cell, account: Account, vmLog: string)
    | EmulationExternalNotAccepted(vmLog: string, vmExitCode: int)

  /** `TvmEmulator::GetMethodResult`. */
  datatype GetMethodResult<Entry> = GetMethodResult(
    vmExitCode: int,
    stack: seq<Entry>,
    gasUsed: Uint64,
    vmLog: string,
    missingLibrary: Option<Bits256>)
}
