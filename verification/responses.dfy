/** The three fixed response shapes of transaction emulation
    (`success_response`, `external_not_accepted_response`, `error_response`),
    and a reader showing that a caller can tell them apart and recover their
    contents. */
module Responses {
  import opened Wrappers
  import opened Json
  import opened Decimal

  const NotAcceptedError: string := "External message not accepted by smart contract"

  datatype TxResponse =
    | TxSuccess(transaction: string, shardAccount: string, vmLog: string)
    | TxNotAccepted(vmLog: string, vmExitCode: int)
    | TxError(error: string)

  /** The field names of each shape, in the order they are written. */
  function ShapeKeys(r: TxResponse): seq<string>
  {
    match r
    case TxSuccess(_, _, _) => ["success", "transaction", "shard_account", "vm_log"]
    case TxNotAccepted(_, _) => ["success", "error", "vm_log", "vm_exit_code"]
    case TxError(_) => ["success", "error"]
  }

  /** The response object for one outcome. */
  function TxResponseJson(r: TxResponse): (j: Json)
    ensures Keys(j) == ShapeKeys(r)
    ensures Lookup(j, "success") == Some(JBool(r.TxSuccess?))
    ensures r.TxNotAccepted? ==> Lookup(j, "error") == Some(JString(NotAcceptedError))
    ensures r.TxError? ==> Lookup(j, "error") == Some(JString(r.error))
  {
    match r
    case TxSuccess(tx, sa, log) =>
      JObject([("success", JBool(true)), ("transaction", JString(tx)), ("shard_account", JString(sa)), ("vm_log", JString(log))])
    case TxNotAccepted(log, code) =>
      var fields := [("success", JBool(false)), ("error", JString(NotAcceptedError)), ("vm_log", JString(log)),
                     ("vm_exit_code", JNumber(SignedDecimal(code)))];
      FirstField(fields, "error", 1);
      JObject(fields)
    case TxError(e) =>
      FirstField([("success", JBool(false)), ("error", JString(e))], "error", 1);
      JObject([("success", JBool(false)), ("error", JString(e))])
  }

  function StringAt(j: Json, name: string): Option<string>
  {
    match Lookup(j, name)
    case Some(JString(s)) => Some(s)
    case _ => None
  }

  /** How a caller reads a response: `success` picks the shape, and a failure
      carrying `vm_exit_code` is a declined external message, which must carry
      the fixed not-accepted error text. */
  function ReadTxResponse(j: Json): Option<TxResponse>
  {
    match Lookup(j, "success")
    case Some(JBool(true)) =>
      var tx :- StringAt(j, "transaction");
      var sa :- StringAt(j, "shard_account");
      var log :- StringAt(j, "vm_log");
      Some(TxSuccess(tx, sa, log))
    case Some(JBool(false)) =>
      var e :- StringAt(j, "error");
      (match Lookup(j, "vm_exit_code")
       case Some(JNumber(text)) =>
         if e != NotAcceptedError then None else
         var code :- ParseSigned(text);
         var log :- StringAt(j, "vm_log");
         Some(TxNotAccepted(log, code))
       case _ => Some(TxError(e)))
    case _ => None
  }

  /** Every response reads back as the outcome it was built from. */
  lemma TxResponseRoundTrip(r: TxResponse)
    ensures ReadTxResponse(TxResponseJson(r)) == Some(r)
  {
    match r
    case TxSuccess(tx, sa, log) => SuccessReadBack(tx, sa, log);
    case TxNotAccepted(log, code) => NotAcceptedReadBack(log, code);
    case TxError(e) => ErrorReadBack(e);
  }

  lemma SuccessReadBack(tx: string, sa: string, log: string)
    ensures ReadTxResponse(TxResponseJson(TxSuccess(tx, sa, log))) == Some(TxSuccess(tx, sa, log))
  {
    var j := TxResponseJson(TxSuccess(tx, sa, log));
    FirstField(j.fields, "success", 0);
    FirstField(j.fields, "transaction", 1);
    FirstField(j.fields, "shard_account", 2);
    FirstField(j.fields, "vm_log", 3);
  }

  lemma NotAcceptedReadBack(log: string, code: int)
    ensures ReadTxResponse(TxResponseJson(TxNotAccepted(log, code))) == Some(TxNotAccepted(log, code))
  {
    var j := TxResponseJson(TxNotAccepted(log, code));
    assert StringAt(j, "error") == Some(NotAcceptedError);
    assert StringAt(j, "vm_log") == Some(log) by {
      FirstField(j.fields, "vm_log", 2);
    }
    assert Lookup(j, "vm_exit_code") == Some(JNumber(SignedDecimal(code))) by {
      FirstField(j.fields, "vm_exit_code", 3);
    }
    SignedRoundTrip(code);
  }

  lemma ErrorReadBack(e: string)
    ensures ReadTxResponse(TxResponseJson(TxError(e))) == Some(TxError(e))
  {
    var j := TxResponseJson(TxError(e));
    FirstField(j.fields, "success", 0);
    FirstField(j.fields, "error", 1);
    assert j.fields[0].0 != "vm_exit_code" && j.fields[1].0 != "vm_exit_code";
    assert FieldIndex(j.fields, "vm_exit_code") == None;
  }
}
