/** The order orchestrator (backend/src/controllers/swap.controller.ts):
    `createSwapOrder` turns a source-chain transaction id into at most one
    `SwapOrder` and pays out on Electroneum; `getOrderStatus` and
    `pollOrderStatus` read the store. The indexer reply, the executor's
    transfer and the clock are inputs. */
module SwapController {
  import opened Wrappers
  import opened JsValues
  import opened SwapOrderModel
  import StacksDecoder
  import ElectroneumExecutor

  const FeeRate: real := 0.005

  /** `destinationChain.toLowerCase().includes("electroneum")`: any chain
      name that spells "electroneum" in lower case is supported, and none
      shorter than that word is. */
  function IsSupportedChain(chain: string): (b: bool)
    ensures b ==> |chain| >= |"electroneum"|
    ensures Includes(chain, "electroneum") ==> b
  {
    assert Includes(chain, "electroneum") ==> Includes(ToLower(chain), "electroneum") by {
      if Includes(chain, "electroneum") {
        LowerKeepsLowerCaseOccurrence(chain, "electroneum");
      }
    }
    Includes(ToLower(chain), "electroneum")
  }

  /** `parseFloat(expectedAmount) / 1000000`: the parsed base units read
      as millionths, never negative, `NaN` when the text does not parse. */
  function GrossAmount(expectedAmount: string): (r: JsNumber)
    ensures r.Some? <==> ParseFloat(expectedAmount).Some?
    ensures r.Some? ==> r.value >= 0.0 && r.value * 1000000.0 == ParseFloat(expectedAmount).value
  {
    FromMicro(ParseFloat(expectedAmount))
  }

  /** The amount after the 0.5% fee is withheld: a number exactly when the
      gross amount is, and between 0 and the gross amount. */
  function NetAmount(expectedAmount: string): (r: JsNumber)
    ensures r.Some? <==> GrossAmount(expectedAmount).Some?
    ensures r.Some? ==> 0.0 <= r.value <= GrossAmount(expectedAmount).value
  {
    var gross := GrossAmount(expectedAmount);
    Sub(gross, Scale(gross, FeeRate))
  }

  /** The net amount is 99.5% of the gross amount, never negative, and
      strictly below the gross amount whenever that is positive. */
  lemma FeeWithheld(expectedAmount: string)
    ensures NetAmount(expectedAmount).Some? <==> GrossAmount(expectedAmount).Some?
    ensures GrossAmount(expectedAmount).Some? ==>
              && NetAmount(expectedAmount).value == GrossAmount(expectedAmount).value * 0.995
              && NetAmount(expectedAmount).value >= 0.0
              && (GrossAmount(expectedAmount).value > 0.0 ==> NetAmount(expectedAmount).value < GrossAmount(expectedAmount).value)
  {
  }

  /** The amount is read in millionths whatever the token: `n` base units
      become `n / 10^6` tokens, 99.5% of which are sent. */
  lemma FixedMicroScale(n: nat)
    ensures GrossAmount(NatToString(n)) == Some(n as real / 1000000.0)
    ensures NetAmount(NatToString(n)) == Some(n as real * 0.995 / 1000000.0)
  {
    ParseFloatOfNat(n);
  }

  /** An intent for "5000000" (5 STX in micro-units) pays out 4.975 tokens. */
  lemma FiveMillionPaysOut()
    ensures GrossAmount("5000000") == Some(5.0)
    ensures NetAmount("5000000") == Some(4.975)
  {
    var s := "5000000";
    assert AllDigits(s);
    ParseFloatDigits(s);
    assert "5"[..0] == [] && DigitsValue("5") == 5;
    assert "50"[..1] == "5" && DigitsValue("50") == 50;
    assert "500"[..2] == "50" && DigitsValue("500") == 500;
    assert "5000"[..3] == "500" && DigitsValue("5000") == 5000;
    assert "50000"[..4] == "5000" && DigitsValue("50000") == 50000;
    assert "500000"[..5] == "50000" && DigitsValue("500000") == 500000;
    assert s[..6] == "500000";
    assert DigitsValue(s) == 5000000;
  }

  // ---------------------------------------------------------------------
  // Responses

  datatype CreateResponse =
    | MissingTxId                                  // 400 "txId is required"
    | StillPending                                 // "Transaction still pending, ..."
    | IncompleteData(data: StacksDecoder.DataSwap) // 400, the decoded record echoed
    | AlreadyExists(order: SwapOrder)              // 400 "Order already exists"
    | SwapCompleted(order: SwapOrder, hash: string) // 201 "Swap completed. ETN TX: ..."
    | SwapFailed(order: SwapOrder, error: string)   // 500 "Swap failed in Electroneum"
    | ChainUnsupported(order: SwapOrder)           // 400 "Destination chain not supported"
    | InternalError                                // 500 "internal server error"

  /** The HTTP status the handler sets; a handler that sets none answers 200. */
  function HttpStatus(r: CreateResponse): nat {
    match r
    case MissingTxId => 400
    case StillPending => 200
    case IncompleteData(_) => 400
    case AlreadyExists(_) => 400
    case SwapCompleted(_, _) => 201
    case SwapFailed(_, _) => 500
    case ChainUnsupported(_) => 400
    case InternalError => 500
  }

  /** The six fields the handler requires of a decoded transaction. */
  predicate Complete(d: StacksDecoder.DataSwap) {
    && d.orderId.Some? && d.stxAmountFromLog.Some? && d.destinationChain.Some?
    && d.destinationAddress.Some? && d.destinationToken.Some? && d.expectedAmount.Some?
  }

  /** The `pending` document built from a complete intent. */
  function PendingOrder(txId: string, d: StacksDecoder.DataSwap, now: int): SwapOrder
    requires Complete(d)
  {
    NewOrder(d.orderId.value, d.sender, d.stxAmountFromLog.value.stx, d.destinationChain.value,
             d.destinationAddress.value, d.destinationToken.value, d.expectedAmount.value, txId, now)
  }

  /** What one call answers and which documents it saves, in order. */
  datatype Outcome = Outcome(response: CreateResponse, saves: seq<SwapOrder>)

  /** `createSwapOrder`, as a function of the store it starts from. */
  function CreateOutcome(txId: string, reply: StacksDecoder.IndexerReply, store: map<string, SwapOrder>,
                         now: int, send: ElectroneumExecutor.Transfer -> Result<string, string>): Outcome
  {
    if !Truthy(txId) then Outcome(MissingTxId, [])
    else
      var info := StacksDecoder.TransactionInfo(txId, reply);
      if !StacksDecoder.Finalized(info) then Outcome(StillPending, [])
      else if !Complete(info.data) then Outcome(IncompleteData(info.data), [])
      else if info.data.orderId.value in store then Outcome(AlreadyExists(store[info.data.orderId.value]), [])
      else
        var d := info.data;
        var pending := PendingOrder(txId, d, now);
        if !SatisfiesSchema(pending) then Outcome(InternalError, [])
        else
          var (response, final) := Settlement(pending, send);
          Outcome(response, [pending, final])
  }

  /** The payout step for a saved pending order: the response and the
      order's final document. */
  function Settlement(pending: SwapOrder, send: ElectroneumExecutor.Transfer -> Result<string, string>)
    : (CreateResponse, SwapOrder)
  {
    if !IsSupportedChain(pending.destinationChain) then
      var failed := pending.(status := Failed, errorMessage := Some("Unsupported chain: " + pending.destinationChain));
      (ChainUnsupported(failed), failed)
    else
      match ElectroneumExecutor.ExecuteSwap(pending.destinationToken, pending.destinationAddress,
                                             NetAmount(pending.expectedAmount), send)
      case Success(h) =>
        var done := pending.(status := Completed, destinationTxHash := Some(h));
        (SwapCompleted(done, h), done)
      case Failure(e) =>
        var failed := pending.(status := Failed, errorMessage := Some(e));
        (SwapFailed(failed, e), failed)
  }

  /** The store after the given saves, each upserting by order id. */
  function ApplySaves(store: map<string, SwapOrder>, saves: seq<SwapOrder>): map<string, SwapOrder>
    decreases |saves|
  {
    if saves == [] then store
    else ApplySaves(store[saves[0].orderId := saves[0]], saves[1..])
  }

  /** Saving a document and then its update leaves only the update. */
  lemma ApplyPendingThenFinal(store: map<string, SwapOrder>, pending: SwapOrder, final: SwapOrder)
    requires pending.orderId == final.orderId
    ensures ApplySaves(store, [pending, final]) == store[final.orderId := final]
  {
    assert [pending, final][1..] == [final];
    assert [final][1..] == [];
    calc {
      ApplySaves(store, [pending, final]);
      ApplySaves(store[pending.orderId := pending], [final]);
      ApplySaves(store[pending.orderId := pending][final.orderId := final], []);
      store[pending.orderId := pending][final.orderId := final];
      store[final.orderId := final];
    }
  }

  // ---------------------------------------------------------------------
  // Properties of one call

  /** A response that stops before the payout saves nothing; every other
      response saves exactly two documents. */
  lemma GuardsSaveNothing(txId: string, reply: StacksDecoder.IndexerReply, store: map<string, SwapOrder>,
                          now: int, send: ElectroneumExecutor.Transfer -> Result<string, string>)
    ensures var o := CreateOutcome(txId, reply, store, now, send);
      && (o.saves == [] <==>
            (o.response.MissingTxId? || o.response.StillPending? || o.response.IncompleteData?
             || o.response.AlreadyExists? || o.response.InternalError?))
      && (o.saves != [] ==> |o.saves| == 2)
  {
  }

  /** When a call saves anything, it first inserts a new pending order under
      an order id the store did not hold, then saves that order's one
      terminal update, which is the order the response carries. */
  lemma SavesPendingThenTerminal(txId: string, reply: StacksDecoder.IndexerReply, store: map<string, SwapOrder>,
                                 now: int, send: ElectroneumExecutor.Transfer -> Result<string, string>)
    requires CreateOutcome(txId, reply, store, now, send).saves != []
    ensures var o := CreateOutcome(txId, reply, store, now, send);
      var info := StacksDecoder.TransactionInfo(txId, reply);
      && |o.saves| == 2
      && StacksDecoder.Finalized(info) && Complete(info.data)
      && o.saves[0] == PendingOrder(txId, info.data, now)
      && o.saves[0].orderId !in store
      && o.saves[0].externalTxHash == txId && o.saves[0].user == info.data.sender
      && TerminalUpdateOf(o.saves[0], o.saves[1])
      && o.response.order == o.saves[1]
  {
  }

  /** A finalized, complete transaction whose order id is already stored
      is answered with the stored order and changes nothing. */
  lemma DuplicateAnswersStoredOrder(txId: string, reply: StacksDecoder.IndexerReply, store: map<string, SwapOrder>,
                                    now: int, send: ElectroneumExecutor.Transfer -> Result<string, string>)
    requires Truthy(txId)
    requires StacksDecoder.Finalized(StacksDecoder.TransactionInfo(txId, reply))
    requires Complete(StacksDecoder.TransactionInfo(txId, reply).data)
    requires StacksDecoder.TransactionInfo(txId, reply).data.orderId.value in store
    ensures CreateOutcome(txId, reply, store, now, send)
            == Outcome(AlreadyExists(store[StacksDecoder.TransactionInfo(txId, reply).data.orderId.value]), [])
  {
  }

  /** Resubmitting a transaction that was already processed, at any later
      time and whatever the executor would now do, returns the stored final
      order and saves nothing: an order is paid out at most once. */
  lemma ResubmissionIsRejected(txId: string, reply: StacksDecoder.IndexerReply, store: map<string, SwapOrder>,
                               now: int, send: ElectroneumExecutor.Transfer -> Result<string, string>,
                               later: int, send2: ElectroneumExecutor.Transfer -> Result<string, string>)
    requires CreateOutcome(txId, reply, store, now, send).saves != []
    ensures var o := CreateOutcome(txId, reply, store, now, send);
      && |o.saves| == 2
      && CreateOutcome(txId, reply, ApplySaves(store, o.saves), later, send2) == Outcome(AlreadyExists(o.saves[1]), [])
  {
    var o := CreateOutcome(txId, reply, store, now, send);
    SavesPendingThenTerminal(txId, reply, store, now, send);
    ApplyPendingThenFinal(store, o.saves[0], o.saves[1]);
  }

  /** Orders already stored are never rewritten by a call. */
  lemma StoredOrdersUntouched(txId: string, reply: StacksDecoder.IndexerReply, store: map<string, SwapOrder>,
                              now: int, send: ElectroneumExecutor.Transfer -> Result<string, string>, k: string)
    requires k in store
    ensures var after := ApplySaves(store, CreateOutcome(txId, reply, store, now, send).saves);
      k in after && after[k] == store[k]
  {
    var o := CreateOutcome(txId, reply, store, now, send);
    if o.saves != [] {
      SavesPendingThenTerminal(txId, reply, store, now, send);
      ApplyPendingThenFinal(store, o.saves[0], o.saves[1]);
    }
  }

  /** Of the fields a complete intent supplies, only the sender can be
      empty, so saving the new order fails (500, nothing saved) exactly
      when the transaction's sender is the empty string. */
  lemma ValidationFailsOnlyOnSender(txId: string, reply: StacksDecoder.IndexerReply, store: map<string, SwapOrder>,
                                    now: int, send: ElectroneumExecutor.Transfer -> Result<string, string>)
    requires Truthy(txId)
    requires StacksDecoder.Finalized(StacksDecoder.TransactionInfo(txId, reply))
    requires Complete(StacksDecoder.TransactionInfo(txId, reply).data)
    requires StacksDecoder.TransactionInfo(txId, reply).data.orderId.value !in store
    ensures CreateOutcome(txId, reply, store, now, send).response.InternalError?
            <==> !Truthy(StacksDecoder.TransactionInfo(txId, reply).data.sender)
  {
    StacksDecoder.DecodedFieldsTruthy(txId, reply.tx);
  }

  /** A destination chain without "electroneum" in it (in any letter case)
      fails the order with "Unsupported chain: <chain>" and never reaches
      the executor: the outcome is the same whatever it would do. */
  lemma UnsupportedChainSkipsExecutor(pending: SwapOrder, send1: ElectroneumExecutor.Transfer -> Result<string, string>,
                                      send2: ElectroneumExecutor.Transfer -> Result<string, string>)
    requires !IsSupportedChain(pending.destinationChain)
    ensures Settlement(pending, send1) == Settlement(pending, send2)
    ensures Settlement(pending, send1).1.status == Failed
    ensures Settlement(pending, send1).1.errorMessage == Some("Unsupported chain: " + pending.destinationChain)
    ensures HttpStatus(Settlement(pending, send1).0) == 400
  {
  }

  /** On a supported chain the executor is asked to send the net amount of
      the order's token to the order's address; its transaction hash
      completes the order (201), its error message fails it (500). */
  lemma PayoutRecorded(pending: SwapOrder, send: ElectroneumExecutor.Transfer -> Result<string, string>)
    requires IsSupportedChain(pending.destinationChain)
    ensures var sent := ElectroneumExecutor.ExecuteSwap(pending.destinationToken, pending.destinationAddress,
                                                        NetAmount(pending.expectedAmount), send);
      var (response, final) := Settlement(pending, send);
      && (sent.Success? ==> final.status == Completed && final.destinationTxHash == Some(sent.value)
                            && response == SwapCompleted(final, sent.value) && HttpStatus(response) == 201)
      && (sent.Failure? ==> final.status == Failed && final.errorMessage == Some(sent.error)
                            && response == SwapFailed(final, sent.error) && HttpStatus(response) == 500)
  {
  }

  /** The case-insensitive containment test. */
  lemma ChainTestIgnoresCase(chain: string)
    ensures IsSupportedChain(chain) <==> IsSupportedChain(ToUpper(chain))
  {
    LowerOfUpper(chain);
  }

  // ---------------------------------------------------------------------
  // The order store

  class OrderStore {
    var orders: map<string, SwapOrder>
    /** Every document saved so far, in order. */
    ghost var saved: seq<SwapOrder>

    /** The unique index on `orderId`, and every stored document passed
        the schema's validation. */
    ghost predicate Valid()
      reads this
    {
      KeyedByOrderId(orders) && forall k :: k in orders ==> SatisfiesSchema(orders[k])
    }

    constructor()
      ensures Valid() && orders == map[] && saved == []
    {
      orders := map[];
      saved := [];
    }

    /** `document.save()` for a document that passes validation. */
    method Save(o: SwapOrder)
      requires Valid() && SatisfiesSchema(o)
      modifies this
      ensures Valid()
      ensures orders == old(orders)[o.orderId := o] && saved == old(saved) + [o]
    {
      orders := orders[o.orderId := o];
      saved := saved + [o];
    }

    method CreateSwapOrder(txId: string, reply: StacksDecoder.IndexerReply, now: int,
                           send: ElectroneumExecutor.Transfer -> Result<string, string>)
      returns (response: CreateResponse)
      requires Valid()
      modifies this
      ensures Valid()
      ensures response == CreateOutcome(txId, reply, old(orders), now, send).response
      ensures saved == old(saved) + CreateOutcome(txId, reply, old(orders), now, send).saves
      ensures orders == ApplySaves(old(orders), CreateOutcome(txId, reply, old(orders), now, send).saves)
    {
      ghost var before := orders;
      if !Truthy(txId) {
        return MissingTxId;
      }
      var result := StacksDecoder.GetTransactionInfo(txId, reply);
      if !StacksDecoder.Finalized(result) {
        return StillPending;
      }
      var d := result.data;
      if d.orderId.None? || d.stxAmountFromLog.None? || d.destinationChain.None?
         || d.destinationAddress.None? || d.destinationToken.None? || d.expectedAmount.None? {
        return IncompleteData(d);
      }
      var orderId := d.orderId.value;
      if orderId in orders {
        return AlreadyExists(orders[orderId]);
      }
      var newOrder := NewOrder(orderId, d.sender, d.stxAmountFromLog.value.stx, d.destinationChain.value,
                               d.destinationAddress.value, d.destinationToken.value,
                               d.expectedAmount.value, txId, now);
      if !SatisfiesSchema(newOrder) {
        return InternalError;
      }
      Save(newOrder);
      var final;
      response, final := Settle(newOrder, send);
      ApplyPendingThenFinal(before, newOrder, final);
    }

    /** Executes the payout for a saved pending order and saves its
        final document. */
    method Settle(order: SwapOrder, send: ElectroneumExecutor.Transfer -> Result<string, string>)
      returns (response: CreateResponse, final: SwapOrder)
      requires Valid() && SatisfiesSchema(order)
      modifies this
      ensures Valid()
      ensures (response, final) == Settlement(order, send)
      ensures orders == old(orders)[final.orderId := final] && saved == old(saved) + [final]
    {
      final := order;
      if IsSupportedChain(order.destinationChain) {
        var amountInTokens := GrossAmount(order.expectedAmount);
        var fee := Scale(amountInTokens, FeeRate);
        amountInTokens := Sub(amountInTokens, fee);
        var outcome := ElectroneumExecutor.ExecuteSwap(order.destinationToken, order.destinationAddress,
                                                       amountInTokens, send);
        match outcome
        case Success(etnTxHash) =>
          final := final.(status := Completed, destinationTxHash := Some(etnTxHash));
          Save(final);
          response := SwapCompleted(final, etnTxHash);
        case Failure(message) =>
          final := final.(status := Failed, errorMessage := Some(message));
          Save(final);
          response := SwapFailed(final, message);
      } else {
        final := final.(status := Failed, errorMessage := Some("Unsupported chain: " + order.destinationChain));
        Save(final);
        response := ChainUnsupported(final);
      }
    }

    /** `getOrderStatus`: the stored order with that id, or 404. */
    method GetOrderStatus(orderId: string) returns (r: Option<SwapOrder>)
      ensures r.Some? <==> orderId in orders
      ensures r.Some? ==> r.value == orders[orderId]
    {
      if orderId !in orders {
        return None;
      }
      return Some(orders[orderId]);
    }

    /** `pollOrderStatus`: the stored order's status with the order, or 404. */
    method PollOrderStatus(orderId: string) returns (r: Option<(OrderStatus, SwapOrder)>)
      ensures r.Some? <==> orderId in orders
      ensures r.Some? ==> r.value.1 == orders[orderId] && r.value.0 == orders[orderId].status
    {
      var order := GetOrderStatus(orderId);
      if order.None? {
        return None;
      }
      return Some((order.value.status, order.value));
    }
  }
}
