/** The `SwapOrder` record (backend/src/models/swapOrder.model.ts): one
    document per bridging request, keyed by the escrow contract's order id. */
module SwapOrderModel {
  import opened Wrappers
  import opened JsValues

  /** The schema's `status` enum. */
  datatype OrderStatus = Pending | Completed | Failed

  function StatusName(s: OrderStatus): string {
    match s
    case Pending => "pending"
    case Completed => "completed"
    case Failed => "failed"
  }

  /** The enum validator: which stored text names a status. */
  function ParseStatus(name: string): (r: Option<OrderStatus>)
    ensures r.Some? ==> StatusName(r.value) == name
    ensures r.None? <==> name !in {"pending", "completed", "failed"}
  {
    if name == "pending" then Some(Pending)
    else if name == "completed" then Some(Completed)
    else if name == "failed" then Some(Failed)
    else None
  }

  lemma StatusNameRoundTrip(s: OrderStatus)
    ensures ParseStatus(StatusName(s)) == Some(s)
  {
  }

  /** A stored order. `stxAmount` is kept as the number whose decimal text
      the document holds; times are milliseconds since the epoch. */
  datatype SwapOrder = SwapOrder(
    orderId: string,
    user: string,
    stxAmount: JsNumber,
    destinationChain: string,
    destinationAddress: string,
    destinationToken: string,
    expectedAmount: string,
    status: OrderStatus,
    externalTxHash: string,
    destinationTxHash: Option<string>,
    errorMessage: Option<string>,
    createdAt: int,
    updatedAt: int)

  /** The validation `save` runs: every required string path is present
      and non-empty (a number's text, even `NaN`, never is empty). */
  predicate SatisfiesSchema(o: SwapOrder) {
    && Truthy(o.orderId)
    && Truthy(o.user)
    && Truthy(o.destinationChain)
    && Truthy(o.destinationAddress)
    && Truthy(o.destinationToken)
    && Truthy(o.expectedAmount)
    && Truthy(o.externalTxHash)
  }

  /** A freshly constructed document: `pending`, no destination hash or
      error yet, both timestamps defaulting to the creation time. */
  function NewOrder(orderId: string, user: string, stxAmount: JsNumber, chain: string, address: string,
                    token: string, expectedAmount: string, externalTxHash: string, now: int): (o: SwapOrder)
    ensures o.status == Pending
    ensures o.destinationTxHash.None? && o.errorMessage.None?
    ensures o.createdAt == now && o.updatedAt == now
    ensures o.orderId == orderId && o.user == user && o.externalTxHash == externalTxHash
    ensures SatisfiesSchema(o) <==>
              (Truthy(orderId) && Truthy(user) && Truthy(chain) && Truthy(address) &&
               Truthy(token) && Truthy(expectedAmount) && Truthy(externalTxHash))
  {
    SwapOrder(orderId, user, stxAmount, chain, address, token, expectedAmount, Pending,
              externalTxHash, None, None, now, now)
  }

  /** `final` is `pending` after its one terminal update: completed with a
      destination hash or failed with a message, every other path kept. */
  predicate TerminalUpdateOf(pending: SwapOrder, final: SwapOrder) {
    && pending.status == Pending
    && final.status != Pending
    && (final.status == Completed ==> final == pending.(status := Completed, destinationTxHash := final.destinationTxHash)
                                      && final.destinationTxHash.Some?)
    && (final.status == Failed ==> final == pending.(status := Failed, errorMessage := final.errorMessage)
                                   && final.errorMessage.Some?)
  }

  /** The unique index on `orderId`: each stored order sits under its own id. */
  predicate KeyedByOrderId(store: map<string, SwapOrder>) {
    forall k :: k in store ==> store[k].orderId == k
  }

  /** In a store keyed by order id, no two documents share an order id. */
  lemma KeyedStoreIdsUnique(store: map<string, SwapOrder>, a: string, b: string)
    requires KeyedByOrderId(store) && a in store && b in store && a != b
    ensures store[a].orderId != store[b].orderId
  {
  }
}
