/** What the signer asks the full node: whether a transaction is in the chain, and how high the chain is. */
module ChainInfo {
  import opened Bitcoin
  import opened Errors
  import opened Integers
  import opened Wrappers

  datatype TxStatus = TxNotFound | TxInMemPool | TxInChain

  datatype TxInfo = TxInfo(tx: MsgTx, txInclusionHeight: uint32)

  /** The notifier's answer; it gives the confirmation only for a transaction it found in a block. */
  datatype TxConfStatus =
    | TxNotFoundIndex
    | TxFoundMempool
    | TxFoundIndex(confirmation: TxInfo)
    | TxNotFoundManually
    | TxFoundManually(confirmation: TxInfo)

  function NotifierStateToClientState(state: TxConfStatus): TxStatus {
    match state
    case TxNotFoundIndex => TxNotFound
    case TxFoundMempool => TxInMemPool
    case TxFoundIndex(_) => TxInChain
    case TxNotFoundManually => TxNotFound
    case TxFoundManually(_) => TxInChain
  }

  function TxByHash(details: Result<TxConfStatus, Error>): Result<TxInfo, Error> {
    if details.Failure? then Failure(Error("failed to get tx by hash: " + details.error.message, details.error.invalidRequest))
    else if NotifierStateToClientState(details.value) != TxInChain then Failure(Errorf("tx is not in chain"))
    else Success(details.value.confirmation)
  }

  /** A transaction is reported exactly when the notifier found it in a block, by index or by hand, and then as it was
      found; failures of the query keep their class. */
  lemma OnlyInChain(details: Result<TxConfStatus, Error>)
    ensures TxByHash(details).Success? <==> details.Success? && (details.value.TxFoundIndex? || details.value.TxFoundManually?)
    ensures TxByHash(details).Success? ==> TxByHash(details).value == details.value.confirmation
    ensures TxByHash(details).Failure? ==>
              (TxByHash(details).error.invalidRequest <==> details.Failure? && details.error.invalidRequest)
  {
  }

  function BestBlockHeight(count: Result<int64, Error>): Result<uint32, Error> {
    var n :- count;
    Success(ToUint32(n))
  }

  /** The tip conversion keeps a block count exactly when it fits. */
  lemma TipConversionExact(count: int64)
    ensures BestBlockHeight(Success(count)) == Success(ToUint32(count))
    ensures forall e :: BestBlockHeight(Failure(e)) == Failure(e)
    ensures ToUint32(count) == count <==> 0 <= count <= MAX_UINT32
    ensures 0 <= count ==> ToUint32(count) <= count
  {
  }
}
