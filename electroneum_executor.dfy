/** The destination-chain executor (backend/src/services/electroneumService.ts):
    `executeSwap` validates the asset symbol against its own registry and
    picks the native transfer for `ETN` or the ERC-20 transfer for every
    other registered symbol. The transfers themselves (`sendETN`,
    `sendToken`) are network calls; they appear as the `send` parameter,
    whose answer is the transaction hash or the error they throw. */
module ElectroneumExecutor {
  import opened Wrappers
  import opened JsValues

  const ZeroAddress: string := "0x0000000000000000000000000000000000000000"
  const NativeSymbol: string := "ETN"

  /** `ELECTRONEUM_TOKENS`: symbol to contract address, the zero address
      marking the native asset. */
  const Tokens: map<string, string> := map[
    "ETN" := ZeroAddress,
    "sUSDC" := "0x38334FE9b4e7D2A7e92372B446a9820E8eF3Df3d",
    "sUSDT" := "0x09cF09d871b26984f052E7631EaCBA9df089E3dA",
    "sBNB" := "0x9F1DA3Fe5C5C7bEd3793FCC71B4B9eB461251d30",
    "sETH" := "0xA50B70C81F2CccDa119809274EB205c453A23fb5"
  ]

  /** The transfer `executeSwap` hands to the network: `sendETN(to, amount)`
      or `sendToken(contract, to, amount)`. */
  datatype Transfer =
    | NativeTransfer(to: string, amount: JsNumber)
    | TokenTransfer(contract: string, to: string, amount: JsNumber)

  /** The registry holds exactly five symbols and files `ETN`, and only
      `ETN`, under the zero address. */
  lemma RegistryShape()
    ensures Tokens.Keys == {"ETN", "sUSDC", "sUSDT", "sBNB", "sETH"}
    ensures |Tokens| == 5
    ensures NativeSymbol in Tokens && Tokens[NativeSymbol] == ZeroAddress
    ensures forall k :: k in Tokens && k != NativeSymbol ==> Tokens[k] != ZeroAddress
  {
    assert Tokens.Keys == {"ETN", "sUSDC", "sUSDT", "sBNB", "sETH"};
  }

  /** The validation and dispatch of `executeSwap`, before any transfer:
      which transfer it makes, or the error it throws instead. */
  function PlanSwap(token: string, to: string, amount: JsNumber): (r: Result<Transfer, string>)
    ensures r.Success? <==> token in Tokens
    ensures r.Success? ==> r.value.to == to && r.value.amount == amount
    ensures r.Success? ==> (r.value.NativeTransfer? <==> token == NativeSymbol)
    ensures r.Success? && r.value.TokenTransfer? ==> r.value.contract == Tokens[token] && r.value.contract != ZeroAddress
    ensures !Truthy(token) ==> r == Failure("Invalid destinationToken: " + token)
    ensures Truthy(token) && token !in Tokens ==> r == Failure("Token no soportado: " + token)
  {
    if !Truthy(token) then Failure("Invalid destinationToken: " + token)
    else if token !in Tokens then Failure("Token no soportado: " + token)
    else if token == NativeSymbol then Success(NativeTransfer(to, amount))
    else Success(TokenTransfer(Tokens[token], to, amount))
  }

  /** `executeSwap(token, to, amount)`: an invalid or unknown symbol fails
      without consulting `send`; otherwise the planned transfer's hash or
      error is passed back unchanged. */
  function ExecuteSwap(token: string, to: string, amount: JsNumber,
                       send: Transfer -> Result<string, string>): (r: Result<string, string>)
    ensures token !in Tokens ==> r == Failure(PlanSwap(token, to, amount).error)
    ensures token in Tokens ==> r == send(PlanSwap(token, to, amount).value)
  {
    match PlanSwap(token, to, amount)
    case Failure(e) => Failure(e)
    case Success(t) => send(t)
  }

  /** `ETN` always takes the native path and every other registered
      symbol the token path with its registry address, whatever the
      network answers. */
  lemma DispatchByToken(token: string, to: string, amount: JsNumber, send: Transfer -> Result<string, string>)
    requires token in Tokens
    ensures token == NativeSymbol ==> ExecuteSwap(token, to, amount, send) == send(NativeTransfer(to, amount))
    ensures token != NativeSymbol ==> ExecuteSwap(token, to, amount, send) == send(TokenTransfer(Tokens[token], to, amount))
  {
  }
}
