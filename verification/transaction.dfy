/** `transaction_emulator_emulate_transaction` (emulator/emulator-extern.cpp):
    decode the message and the shard account, find the account's address,
    unpack the account stamped with the current time and its privilege, run the
    engine, and answer with one of the three response shapes. Every failure
    before the engine's answer becomes an error response carrying the first
    failing step's message. */
module TransactionDispatch {
  import opened Wrappers
  import opened Bits
  import opened Cells
  import opened Foreign
  import opened EmulatorState
  import opened Responses

  const MessageBase64Prefix: string := "Can't decode base64 message boc: "
  const MessageBocPrefix: string := "Can't deserialize message boc: "
  const ShardAccountBase64Prefix: string := "Can't decode base64 shard account boc: "
  const ShardAccountBocPrefix: string := "Can't deserialize shard account boc: "
  const ShardAccountUnpackError: string := "Can't unpack shard account cell"
  const ExtInUnpackError: string := "Can't unpack inbound external message"
  const IntUnpackError: string := "Can't unpack inbound internal message"
  const UnsupportedMessageError: string := "Only ext in and int message are supported"
  const AccountUnpackError: string := "Can't unpack account cell"
  const AddressExtractError: string := "Can't extract account address"
  const AccountStateUnpackError: string := "Can't unpack shard account"
  const EnginePrefix: string := "Emulate transaction failed: "
  const TransactionSerializePrefix: string := "Can't serialize Transaction to boc"
  const ShardAccountSerializePrefix: string := "Can't serialize ShardAccount to boc"

  /** The engine: runs an ordinary transaction for the account and inbound message,
      under the handle's settings. */
  type TxEngine = (Emulator, Account, Cell) -> Result<EmulationResult>

  /** The decoded inputs: the message cell, the shard-account cell and its record. */
  datatype Inputs = Inputs(message: Cell, shardAccount: Cell, record: ShardAccountRecord)

  /** The four decoding steps and the `ShardAccount` unpacking, in the source's order. */
  function DecodeInputs(codec: Codec, tlb: Tlb, shardAccountText: string, messageText: string): (r: Result<Inputs>)
    ensures codec.base64Decode(messageText).Err? ==>
      r == Err(MessageBase64Prefix + codec.base64Decode(messageText).error)
    ensures codec.base64Decode(messageText).Ok? && CellFromBase64(codec, messageText).Err? ==>
      r == Err(MessageBocPrefix + CellFromBase64(codec, messageText).error)
    ensures CellFromBase64(codec, messageText).Ok? && codec.base64Decode(shardAccountText).Err? ==>
      r == Err(ShardAccountBase64Prefix + codec.base64Decode(shardAccountText).error)
    ensures CellFromBase64(codec, messageText).Ok? && codec.base64Decode(shardAccountText).Ok?
            && CellFromBase64(codec, shardAccountText).Err? ==>
      r == Err(ShardAccountBocPrefix + CellFromBase64(codec, shardAccountText).error)
    ensures r.Ok? <==>
      && CellFromBase64(codec, messageText).Ok?
      && CellFromBase64(codec, shardAccountText).Ok?
      && tlb.unpackShardAccount(CellFromBase64(codec, shardAccountText).value).Some?
    ensures r.Ok? ==>
      && r.value.message == CellFromBase64(codec, messageText).value
      && r.value.shardAccount == CellFromBase64(codec, shardAccountText).value
      && Some(r.value.record) == tlb.unpackShardAccount(r.value.shardAccount)
    ensures CellFromBase64(codec, messageText).Ok? && CellFromBase64(codec, shardAccountText).Ok?
            && tlb.unpackShardAccount(CellFromBase64(codec, shardAccountText).value).None? ==>
      r == Err(ShardAccountUnpackError)
  {
    var messageBytes :- codec.base64Decode(messageText).Prefix(MessageBase64Prefix);
    var message :- codec.bocDeserialize(messageBytes).Prefix(MessageBocPrefix);
    var shardAccountBytes :- codec.base64Decode(shardAccountText).Prefix(ShardAccountBase64Prefix);
    var shardAccount :- codec.bocDeserialize(shardAccountBytes).Prefix(ShardAccountBocPrefix);
    var record :- tlb.unpackShardAccount(shardAccount).ToResult(ShardAccountUnpackError);
    Ok(Inputs(message, shardAccount, record))
  }

  /** Where the account's address is read from. An account that does not exist
      yet (`account_none`) has no address of its own, so it is read off the
      message's destination, for inbound external and internal messages only;
      an existing account's own `addr` is authoritative. */
  function AddressField(tlb: Tlb, message: Cell, account: Cell): (r: Result<CellSlice>)
    ensures tlb.accountTag(account) == AccountNone && tlb.msgInfoTag(message) == ExtInMsgInfo ==>
      r == tlb.unpackExtInDest(message).ToResult(ExtInUnpackError)
    ensures tlb.accountTag(account) == AccountNone && tlb.msgInfoTag(message) == IntMsgInfo ==>
      r == tlb.unpackIntDest(message).ToResult(IntUnpackError)
    ensures tlb.accountTag(account) == AccountNone && tlb.msgInfoTag(message) !in {ExtInMsgInfo, IntMsgInfo} ==>
      r == Err(UnsupportedMessageError)
    ensures tlb.accountTag(account) != AccountNone ==>
      r == tlb.unpackAccountAddr(account).ToResult(AccountUnpackError)
  {
    if tlb.accountTag(account) == AccountNone then
      match tlb.msgInfoTag(message)
      case ExtInMsgInfo => tlb.unpackExtInDest(message).ToResult(ExtInUnpackError)
      case IntMsgInfo => tlb.unpackIntDest(message).ToResult(IntUnpackError)
      case _ => Err(UnsupportedMessageError)
    else
      tlb.unpackAccountAddr(account).ToResult(AccountUnpackError)
  }

  /** The address field parsed as a standard address. */
  function ResolveAddress(tlb: Tlb, message: Cell, account: Cell): (r: Result<StdAddress>)
    ensures r.Ok? ==>
      && AddressField(tlb, message, account).Ok?
      && tlb.extractStdAddress(AddressField(tlb, message, account).value) == Some(r.value)
    ensures AddressField(tlb, message, account).Err? ==> r == Err(AddressField(tlb, message, account).error)
    ensures AddressField(tlb, message, account).Ok?
            && tlb.extractStdAddress(AddressField(tlb, message, account).value).None? ==>
      r == Err(AddressExtractError)
    ensures AddressField(tlb, message, account).Ok?
            && tlb.extractStdAddress(AddressField(tlb, message, account).value).Some? ==>
      r == Ok(tlb.extractStdAddress(AddressField(tlb, message, account).value).value)
  {
    var field :- AddressField(tlb, message, account);
    tlb.extractStdAddress(field).ToResult(AddressExtractError)
  }

  /** `is_special`: a masterchain address the configuration lists as special. */
  predicate IsSpecial(config: Config, a: StdAddress)
  {
    a.workchain == MasterchainId && a.address in config.specialSmartContracts
  }

  /** Everything before the engine runs: the account handed to the engine and the
      message cell, or the first failure's message. */
  function PrepareAccount(codec: Codec, tlb: Tlb, e: Emulator, now: Uint32, shardAccountText: string, messageText: string)
    : (r: Result<(Account, Cell)>)
    ensures DecodeInputs(codec, tlb, shardAccountText, messageText).Err? ==>
      r == Err(DecodeInputs(codec, tlb, shardAccountText, messageText).error)
    ensures DecodeInputs(codec, tlb, shardAccountText, messageText).Ok? ==>
      var inputs := DecodeInputs(codec, tlb, shardAccountText, messageText).value;
      var address := ResolveAddress(tlb, inputs.message, inputs.record.account);
      && (address.Err? ==> r == Err(address.error))
      && (address.Ok? && tlb.unpackAccount(address.value, inputs.shardAccount, now, IsSpecial(e.config, address.value)).None? ==>
            r == Err(AccountStateUnpackError))
      && (address.Ok? && tlb.unpackAccount(address.value, inputs.shardAccount, now, IsSpecial(e.config, address.value)).Some? ==>
            r.Ok?)
    ensures r.Ok? ==>
      var inputs := DecodeInputs(codec, tlb, shardAccountText, messageText).value;
      var account := r.value.0;
      && DecodeInputs(codec, tlb, shardAccountText, messageText).Ok?
      && r.value.1 == inputs.message
      && ResolveAddress(tlb, inputs.message, inputs.record.account) == Ok(account.address)
      && account.now == now
      && (account.isSpecial <==>
            account.address.workchain == MasterchainId && account.address.address in e.config.specialSmartContracts)
      && tlb.unpackAccount(account.address, inputs.shardAccount, now, account.isSpecial) == Some(account.state)
  {
    var inputs :- DecodeInputs(codec, tlb, shardAccountText, messageText);
    var address :- ResolveAddress(tlb, inputs.message, inputs.record.account);
    var special := IsSpecial(e.config, address);
    var state :- tlb.unpackAccount(address, inputs.shardAccount, now, special).ToResult(AccountStateUnpackError);
    Ok((Account(address, now, special, state), inputs.message))
  }

  /** The new shard account written to the response: a reference to the account's
      total state, then the last transaction's 256-bit hash, then its logical time
      as 64 bits. */
  function PackShardAccount(state: AccountState): (c: Cell)
    ensures |c.refs| == 1 && |c.bits| == 256 + 64
  {
    Cell(state.lastTransHash + UIntBits(state.lastTransLt, 64), [state.totalState])
  }

  /** Reads a packed shard account back into its three parts. */
  function UnpackShardAccount(c: Cell): Option<AccountState>
  {
    if |c.refs| == 1 && |c.bits| == 256 + 64 then
      BitsValueBound(c.bits[256..]);
      Pow2Width64();
      Some(AccountState(c.refs[0], c.bits[..256], BitsValue(c.bits[256..])))
    else None
  }

  /** The packing keeps the state, the hash and the logical time, in that order. */
  lemma ShardAccountPacking(state: AccountState)
    ensures UnpackShardAccount(PackShardAccount(state)) == Some(state)
  {
    var c := PackShardAccount(state);
    assert c.bits[..256] == state.lastTransHash;
    assert c.bits[256..] == UIntBits(state.lastTransLt, 64);
    Pow2Width64();
    UIntBitsValue(state.lastTransLt, 64);
  }

  /** What the response says about the engine's answer. */
  function Classify(codec: Codec, outcome: EmulationResult): (r: TxResponse)
    ensures outcome.EmulationExternalNotAccepted? <==> r.TxNotAccepted?
    ensures r.TxNotAccepted? ==> r.vmLog == outcome.vmLog && r.vmExitCode == outcome.vmExitCode
    ensures r.TxSuccess? ==>
      && outcome.EmulationSuccess?
      && CellToBase64(codec, outcome.transaction) == Ok(r.transaction)
      && CellToBase64(codec, PackShardAccount(outcome.account.state)) == Ok(r.shardAccount)
      && r.vmLog == outcome.vmLog
    ensures outcome.EmulationSuccess? && CellToBase64(codec, outcome.transaction).Err? ==>
      r == TxError(TransactionSerializePrefix + CellToBase64(codec, outcome.transaction).error)
    ensures outcome.EmulationSuccess? && CellToBase64(codec, outcome.transaction).Ok?
            && CellToBase64(codec, PackShardAccount(outcome.account.state)).Err? ==>
      r == TxError(ShardAccountSerializePrefix + CellToBase64(codec, PackShardAccount(outcome.account.state)).error)
    ensures outcome.EmulationSuccess? ==>
      (r.TxSuccess? <==> CellToBase64(codec, outcome.transaction).Ok? && CellToBase64(codec, PackShardAccount(outcome.account.state)).Ok?)
  {
    match outcome
    case EmulationExternalNotAccepted(log, code) => TxNotAccepted(log, code)
    case EmulationSuccess(transaction, account, log) =>
      match CellToBase64(codec, transaction)
      case Err(err) => TxError(TransactionSerializePrefix + err)
      case Ok(transactionText) =>
        match CellToBase64(codec, PackShardAccount(account.state))
        case Err(err) => TxError(ShardAccountSerializePrefix + err)
        case Ok(shardAccountText) => TxSuccess(transactionText, shardAccountText, log)
  }

  /** `transaction_emulator_emulate_transaction`, with the wall clock as `now`. */
  function EmulateTransaction(codec: Codec, tlb: Tlb, engine: TxEngine, e: Emulator, now: Uint32,
                              shardAccountText: string, messageText: string): (r: TxResponse)
    ensures PrepareAccount(codec, tlb, e, now, shardAccountText, messageText).Err? ==>
      r == TxError(PrepareAccount(codec, tlb, e, now, shardAccountText, messageText).error)
    ensures PrepareAccount(codec, tlb, e, now, shardAccountText, messageText).Ok? ==>
      var (account, message) := PrepareAccount(codec, tlb, e, now, shardAccountText, messageText).value;
      && (engine(e, account, message).Err? ==> r == TxError(EnginePrefix + engine(e, account, message).error))
      && (engine(e, account, message).Ok? ==> r == Classify(codec, engine(e, account, message).value))
  {
    match PrepareAccount(codec, tlb, e, now, shardAccountText, messageText)
    case Err(err) => TxError(err)
    case Ok((account, message)) =>
      match engine(e, account, message)
      case Err(err) => TxError(EnginePrefix + err)
      case Ok(outcome) => Classify(codec, outcome)
  }

  // ----- properties -----

  /** A new account takes the inbound external message's destination. */
  lemma AddressFromExternalMessage(tlb: Tlb, message: Cell, account: Cell, dest: CellSlice)
    requires tlb.accountTag(account) == AccountNone && tlb.msgInfoTag(message) == ExtInMsgInfo
    requires tlb.unpackExtInDest(message) == Some(dest)
    ensures ResolveAddress(tlb, message, account) == tlb.extractStdAddress(dest).ToResult(AddressExtractError)
  {
  }

  /** A new account takes the inbound internal message's destination. */
  lemma AddressFromInternalMessage(tlb: Tlb, message: Cell, account: Cell, dest: CellSlice)
    requires tlb.accountTag(account) == AccountNone && tlb.msgInfoTag(message) == IntMsgInfo
    requires tlb.unpackIntDest(message) == Some(dest)
    ensures ResolveAddress(tlb, message, account) == tlb.extractStdAddress(dest).ToResult(AddressExtractError)
  {
  }

  /** An existing account resolves to its own address `b`, whatever the message;
      the message's kind and destination play no part. */
  lemma AddressOfExistingAccount(tlb: Tlb, m1: Cell, m2: Cell, account: Cell, f: CellSlice, b: StdAddress)
    requires tlb.accountTag(account) == AccountExists
    requires tlb.unpackAccountAddr(account) == Some(f) && tlb.extractStdAddress(f) == Some(b)
    ensures ResolveAddress(tlb, m1, account) == Ok(b)
    ensures ResolveAddress(tlb, m1, account) == ResolveAddress(tlb, m2, account)
  {
  }

  /** A new account with any other kind of message is refused, whatever the address would be. */
  lemma UnsupportedMessageRefused(codec: Codec, tlb: Tlb, engine: TxEngine, e: Emulator, now: Uint32,
                                  shardAccountText: string, messageText: string)
    requires DecodeInputs(codec, tlb, shardAccountText, messageText).Ok?
    requires
      var inputs := DecodeInputs(codec, tlb, shardAccountText, messageText).value;
      tlb.accountTag(inputs.record.account) == AccountNone
      && tlb.msgInfoTag(inputs.message) !in {ExtInMsgInfo, IntMsgInfo}
    ensures EmulateTransaction(codec, tlb, engine, e, now, shardAccountText, messageText) == TxError(UnsupportedMessageError)
  {
  }

  /** A malformed message is reported before anything about the shard account is
      looked at, and the response is the bare error shape. */
  lemma MessageCheckedFirst(codec: Codec, tlb: Tlb, engine: TxEngine, e: Emulator, now: Uint32,
                            shardAccountText: string, messageText: string)
    requires codec.base64Decode(messageText).Err?
    ensures
      var r := EmulateTransaction(codec, tlb, engine, e, now, shardAccountText, messageText);
      && r == TxError(MessageBase64Prefix + codec.base64Decode(messageText).error)
      && Json.Keys(TxResponseJson(r)) == ["success", "error"]
  {
  }

  /** A successful response carries the engine's transaction and the packed new
      shard account, both of which decode back (for a lawful codec). */
  lemma SuccessDecodesBack(codec: Codec, outcome: EmulationResult)
    requires Lawful(codec)
    requires Classify(codec, outcome).TxSuccess?
    ensures CellFromBase64(codec, Classify(codec, outcome).transaction) == Ok(outcome.transaction)
    ensures
      var c := CellFromBase64(codec, Classify(codec, outcome).shardAccount);
      c.Ok? && UnpackShardAccount(c.value) == Some(outcome.account.state)
  {
    var r := Classify(codec, outcome);
    var txBoc := codec.bocSerialize(outcome.transaction).value;
    assert codec.base64Decode(codec.base64Encode(txBoc)) == Ok(txBoc);
    assert codec.bocDeserialize(txBoc) == Ok(outcome.transaction);
    var packed := PackShardAccount(outcome.account.state);
    var saBoc := codec.bocSerialize(packed).value;
    assert codec.base64Decode(codec.base64Encode(saBoc)) == Ok(saBoc);
    assert codec.bocDeserialize(saBoc) == Ok(packed);
    ShardAccountPacking(outcome.account.state);
  }
}
