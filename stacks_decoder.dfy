/** The intent decoder of backend/src/services/stacksService.ts: it reads a
    transaction from the source-chain indexer and fills a record with the
    swap intent found in the transaction's event log. The indexer reply is
    an input; the Clarity decoding of a contract log (`hexToCV` followed by
    `cvToJSON`) appears already done, as the tuple's field texts, or as
    `None` when it threw or produced no value. */
module StacksDecoder {
  import opened Wrappers
  import opened JsValues

  /** `event.asset` of an `stx_asset` event. */
  datatype StxAsset = StxAsset(assetEventType: string, amount: string, sender: string, recipient: string)

  /** One entry of `txData.events`. An `stx_asset` event without an `asset`
      object makes the scan throw. */
  datatype TxEvent =
    | StxAssetEvent(asset: Option<StxAsset>)
    | ContractLogEvent(payload: Option<map<string, string>>)
    | OtherEvent

  /** The indexer's transaction JSON; `events` is `None` when it is missing
      or not an array. */
  datatype TxData = TxData(txStatus: string, blockHeight: Option<int>, sender: string,
                           events: Option<seq<TxEvent>>)

  /** What `fetch` gives: an exception (network failure or a body that is
      not JSON), a non-OK response, or the transaction. */
  datatype IndexerReply = FetchError | NotOk | Body(tx: TxData)

  datatype StxTransfer = StxTransfer(microStx: string, stx: JsNumber, sender: string, recipient: string)
  datatype LoggedAmount = LoggedAmount(microStx: string, stx: JsNumber)

  /** The `dataSwap` record; `None` is `null`. */
  datatype DataSwap = DataSwap(
    txId: string,
    status: bool,
    block: Option<int>,
    sender: string,
    stxTransferred: Option<StxTransfer>,
    orderId: Option<string>,
    destinationChain: Option<string>,
    destinationAddress: Option<string>,
    destinationToken: Option<string>,
    expectedAmount: Option<string>,
    stxAmountFromLog: Option<LoggedAmount>)

  /** What `getTransactionInfo` returns: `{status: false}` for a non-OK
      reply, `{susess: false, error}` when anything threw, or the record. */
  datatype TxInfo = NotOkInfo | ErrorInfo | Info(data: DataSwap)

  /** What `getTransactionStatus` returns: `{success: false, error}` for a
      non-OK reply or anything thrown, or the record. */
  datatype TxStatus = StatusError | StatusData(data: DataSwap)

  /** The caller's reading of `!result || !result.status`, negated: the
      transaction was found and succeeded. */
  predicate Finalized(info: TxInfo) {
    info.Info? && info.data.status
  }

  /** The five intent fields a contract log sets together. */
  type Intent = (Option<string>, Option<string>, Option<string>, Option<string>, Option<string>)

  function IntentOf(d: DataSwap): Intent {
    (d.orderId, d.destinationChain, d.destinationAddress, d.destinationToken, d.expectedAmount)
  }

  /** `swapData[key]?.value || null`. */
  function Field(p: map<string, string>, key: string): (r: Option<string>)
    ensures r.Some? <==> key in p && Truthy(p[key])
    ensures r.Some? ==> r.value == p[key]
  {
    if key in p && Truthy(p[key]) then Some(p[key]) else None
  }

  function LogIntent(p: map<string, string>): Intent {
    (Field(p, "order-id"), Field(p, "destination-chain"), Field(p, "destination-address"),
     Field(p, "destination-token"), Field(p, "expected-amount"))
  }

  /** `{microSTX, stx}` read from a truthy `stx-amount`. */
  function LogAmount(p: map<string, string>): Option<LoggedAmount> {
    match Field(p, "stx-amount")
    case Some(v) => Some(LoggedAmount(v, FromMicro(ParseFloat(v))))
    case None => None
  }

  function Initial(txId: string, tx: TxData): DataSwap {
    DataSwap(txId, tx.txStatus == "success", tx.blockHeight, tx.sender,
             None, None, None, None, None, None, None)
  }

  /** One decoded contract log: the five intent fields are overwritten,
      `stxAmountFromLog` only when the log carries a truthy amount. */
  function ApplyLog(d: DataSwap, p: map<string, string>): DataSwap {
    var i := LogIntent(p);
    d.(orderId := i.0, destinationChain := i.1, destinationAddress := i.2,
       destinationToken := i.3, expectedAmount := i.4,
       stxAmountFromLog := if LogAmount(p).Some? then LogAmount(p) else d.stxAmountFromLog)
  }

  /** The body of the `forEach` callback for one event; `None` when it throws. */
  function ApplyEvent(d: DataSwap, e: TxEvent): Option<DataSwap> {
    match e
    case StxAssetEvent(None) => None
    case StxAssetEvent(Some(a)) =>
      if a.assetEventType == "transfer" then
        Some(d.(stxTransferred := Some(StxTransfer(a.amount, FromMicro(ParseFloat(a.amount)), a.sender, a.recipient))))
      else Some(d)
    case ContractLogEvent(None) => Some(d)
    case ContractLogEvent(Some(p)) => Some(ApplyLog(d, p))
    case OtherEvent => Some(d)
  }

  /** The record after the callback has run on every event, in order. */
  function Scan(d: DataSwap, events: seq<TxEvent>): Option<DataSwap>
    decreases |events|
  {
    if events == [] then Some(d)
    else match Scan(d, events[..|events| - 1])
      case None => None
      case Some(d') => ApplyEvent(d', events[|events| - 1])
  }

  /** The record built from one transaction, `None` when the scan threw. */
  function Decode(txId: string, tx: TxData): Option<DataSwap> {
    match tx.events
    case None => Some(Initial(txId, tx))
    case Some(events) => Scan(Initial(txId, tx), events)
  }

  /** `getTransactionInfo(txId)` given the indexer's reply. */
  function TransactionInfo(txId: string, reply: IndexerReply): TxInfo {
    match reply
    case FetchError => ErrorInfo
    case NotOk => NotOkInfo
    case Body(tx) => match Decode(txId, tx)
      case None => ErrorInfo
      case Some(d) => Info(d)
  }

  /** `getTransactionStatus(txId)` given the indexer's reply. */
  function TransactionStatus(txId: string, reply: IndexerReply): TxStatus {
    match reply
    case Body(tx) => (match Decode(txId, tx)
      case None => StatusError
      case Some(d) => StatusData(d))
    case _ => StatusError
  }

  // ---------------------------------------------------------------------
  // The scan as the source runs it

  /** The `forEach` over `txData.events`, updating the record field by field. */
  method ScanTransaction(txId: string, tx: TxData) returns (r: Option<DataSwap>)
    ensures r == Decode(txId, tx)
  {
    var d := Initial(txId, tx);
    if tx.events.None? {
      return Some(d);
    }
    var events := tx.events.value;
    for i := 0 to |events|
      invariant Scan(Initial(txId, tx), events[..i]) == Some(d)
    {
      assert events[..i + 1][..i] == events[..i];
      match events[i]
      case StxAssetEvent(asset) =>
        if asset.None? {
          assert Scan(Initial(txId, tx), events[..i + 1]) == None;
          SealAbort(Initial(txId, tx), events, i + 1);
          return None;
        }
        if asset.value.assetEventType == "transfer" {
          var a := asset.value;
          d := d.(stxTransferred := Some(StxTransfer(a.amount, FromMicro(ParseFloat(a.amount)), a.sender, a.recipient)));
        }
      case ContractLogEvent(payload) =>
        if payload.Some? {
          var p := payload.value;
          d := d.(orderId := Field(p, "order-id"));
          d := d.(destinationChain := Field(p, "destination-chain"));
          d := d.(destinationAddress := Field(p, "destination-address"));
          d := d.(destinationToken := Field(p, "destination-token"));
          d := d.(expectedAmount := Field(p, "expected-amount"));
          var amount := Field(p, "stx-amount");
          if amount.Some? {
            d := d.(stxAmountFromLog := Some(LoggedAmount(amount.value, FromMicro(ParseFloat(amount.value)))));
          }
        }
      case OtherEvent =>
    }
    assert events[..|events|] == events;
    return Some(d);
  }

  /** Every intent field the record holds is a non-empty string. */
  predicate IntentFieldsTruthy(d: DataSwap) {
    && (d.orderId.Some? ==> Truthy(d.orderId.value))
    && (d.destinationChain.Some? ==> Truthy(d.destinationChain.value))
    && (d.destinationAddress.Some? ==> Truthy(d.destinationAddress.value))
    && (d.destinationToken.Some? ==> Truthy(d.destinationToken.value))
    && (d.expectedAmount.Some? ==> Truthy(d.expectedAmount.value))
  }

  /** The scan only ever stores truthy intent fields. */
  lemma {:induction false} ScanKeepsFieldsTruthy(d: DataSwap, events: seq<TxEvent>)
    requires IntentFieldsTruthy(d) && Scan(d, events).Some?
    ensures IntentFieldsTruthy(Scan(d, events).value)
    decreases |events|
  {
    if events != [] {
      ScanKeepsFieldsTruthy(d, events[..|events| - 1]);
    }
  }

  /** A decoded record's intent fields are never empty strings. */
  lemma DecodedFieldsTruthy(txId: string, tx: TxData)
    requires Decode(txId, tx).Some?
    ensures IntentFieldsTruthy(Decode(txId, tx).value)
  {
    if tx.events.Some? {
      ScanKeepsFieldsTruthy(Initial(txId, tx), tx.events.value);
    }
  }

  /** Once the callback has thrown, the whole scan has. */
  lemma {:induction false} SealAbort(d: DataSwap, events: seq<TxEvent>, n: nat)
    requires n <= |events| && Scan(d, events[..n]) == None
    ensures Scan(d, events) == None
    decreases |events| - n
  {
    if n < |events| {
      assert events[..n + 1][..n] == events[..n];
      SealAbort(d, events, n + 1);
    } else {
      assert events[..n] == events;
    }
  }

  method GetTransactionInfo(txId: string, reply: IndexerReply) returns (r: TxInfo)
    ensures r == TransactionInfo(txId, reply)
  {
    match reply
    case FetchError => return ErrorInfo;
    case NotOk => return NotOkInfo;
    case Body(tx) =>
      var d := ScanTransaction(txId, tx);
      if d.None? {
        return ErrorInfo;
      }
      return Info(d.value);
  }

  method GetTransactionStatus(txId: string, reply: IndexerReply) returns (r: TxStatus)
    ensures r == TransactionStatus(txId, reply)
  {
    if !reply.Body? {
      return StatusError;
    }
    var d := ScanTransaction(txId, reply.tx);
    if d.None? {
      return StatusError;
    }
    return StatusData(d.value);
  }

  // ---------------------------------------------------------------------
  // Properties of the decoder

  predicate IsDecodedLog(e: TxEvent) { e.ContractLogEvent? && e.payload.Some? }

  predicate CarriesAmount(e: TxEvent) { IsDecodedLog(e) && LogAmount(e.payload.value).Some? }

  /** The scan never changes what was read from the transaction itself. */
  lemma {:induction false} ScanKeepsHeader(d: DataSwap, events: seq<TxEvent>)
    requires Scan(d, events).Some?
    ensures Scan(d, events).value.txId == d.txId && Scan(d, events).value.status == d.status
    ensures Scan(d, events).value.block == d.block && Scan(d, events).value.sender == d.sender
    decreases |events|
  {
    if events != [] {
      ScanKeepsHeader(d, events[..|events| - 1]);
    }
  }

  /** `status` is true exactly when the indexer reports `tx_status` as
      `"success"`; a reply that is not a transaction is never finalized. */
  lemma StatusMeansSuccess(txId: string, reply: IndexerReply)
    ensures TransactionInfo(txId, reply).Info? ==>
              (TransactionInfo(txId, reply).data.status <==> reply.Body? && reply.tx.txStatus == "success")
    ensures Finalized(TransactionInfo(txId, reply)) <==>
              reply.Body? && reply.tx.txStatus == "success" && Decode(txId, reply.tx).Some?
    ensures TransactionStatus(txId, reply).StatusData? <==> TransactionInfo(txId, reply).Info?
  {
    if reply.Body? && reply.tx.events.Some? && Decode(txId, reply.tx).Some? {
      ScanKeepsHeader(Initial(txId, reply.tx), reply.tx.events.value);
    }
  }

  /** Without an event array every intent field stays `null`. */
  lemma MissingEventsNoIntent(txId: string, tx: TxData)
    requires tx.events.None?
    ensures Decode(txId, tx).Some?
    ensures IntentOf(Decode(txId, tx).value) == (None, None, None, None, None)
    ensures Decode(txId, tx).value.stxAmountFromLog.None?
  {
  }

  /** Events other than a decoded contract log leave the intent fields alone. */
  lemma {:induction false} NoLogKeepsIntent(d: DataSwap, events: seq<TxEvent>)
    requires Scan(d, events).Some?
    requires forall j :: 0 <= j < |events| ==> !IsDecodedLog(events[j])
    ensures IntentOf(Scan(d, events).value) == IntentOf(d)
    ensures Scan(d, events).value.stxAmountFromLog == d.stxAmountFromLog
    decreases |events|
  {
    if events != [] {
      NoLogKeepsIntent(d, events[..|events| - 1]);
    }
  }

  /** The last decoded contract log decides all five intent fields, each
      `null` when that log's value is missing or empty. */
  lemma {:induction false} LastLogWins(d: DataSwap, events: seq<TxEvent>, k: nat)
    requires Scan(d, events).Some?
    requires k < |events| && IsDecodedLog(events[k])
    requires forall j :: k < j < |events| ==> !IsDecodedLog(events[j])
    ensures IntentOf(Scan(d, events).value) == LogIntent(events[k].payload.value)
    decreases |events|
  {
    var pre := events[..|events| - 1];
    if k < |events| - 1 {
      LastLogWins(d, pre, k);
    }
  }

  /** `stxAmountFromLog` comes from the last decoded log that carries a
      truthy `stx-amount`; later logs without one do not reset it. */
  lemma {:induction false} AmountFromLastLogCarryingIt(d: DataSwap, events: seq<TxEvent>, k: nat)
    requires Scan(d, events).Some?
    requires k < |events| && CarriesAmount(events[k])
    requires forall j :: k < j < |events| ==> !CarriesAmount(events[j])
    ensures Scan(d, events).value.stxAmountFromLog == LogAmount(events[k].payload.value)
    decreases |events|
  {
    var pre := events[..|events| - 1];
    if k < |events| - 1 {
      AmountFromLastLogCarryingIt(d, pre, k);
    }
  }

  /** When no log carries an amount, `stxAmountFromLog` keeps its value. */
  lemma {:induction false} AmountNeverReset(d: DataSwap, events: seq<TxEvent>)
    requires Scan(d, events).Some?
    requires forall j :: 0 <= j < |events| ==> !CarriesAmount(events[j])
    ensures Scan(d, events).value.stxAmountFromLog == d.stxAmountFromLog
    decreases |events|
  {
    if events != [] {
      AmountNeverReset(d, events[..|events| - 1]);
    }
  }

  /** A contract log whose payload does not decode is skipped: the scan
      goes on over the remaining events as if it were not there. */
  lemma {:induction false} UndecodableLogSkipped(d: DataSwap, pre: seq<TxEvent>, post: seq<TxEvent>)
    ensures Scan(d, pre + [ContractLogEvent(None)] + post) == Scan(d, pre + post)
    decreases |post|
  {
    var x := ContractLogEvent(None);
    if post == [] {
      assert pre + [x] + post == pre + [x];
      assert (pre + [x])[..|pre|] == pre;
      assert pre + post == pre;
    } else {
      var a, b := pre + [x] + post, pre + post;
      var post' := post[..|post| - 1];
      assert a[..|a| - 1] == pre + [x] + post';
      assert b[..|b| - 1] == pre + post';
      assert a[|a| - 1] == b[|b| - 1];
      UndecodableLogSkipped(d, pre, post');
    }
  }

  /** An `stx_asset` event without an `asset` object throws, so the whole
      call answers with its error shape. */
  lemma MalformedAssetAborts(txId: string, tx: TxData, k: nat)
    requires tx.events.Some? && k < |tx.events.value| && tx.events.value[k] == StxAssetEvent(None)
    ensures Decode(txId, tx) == None
    ensures TransactionInfo(txId, Body(tx)) == ErrorInfo
    ensures TransactionStatus(txId, Body(tx)) == StatusError
  {
    var events := tx.events.value;
    assert events[..k + 1][..k] == events[..k];
    SealAbort(Initial(txId, tx), events, k + 1);
  }
}
