# Swap bridge backend, modelled in Dafny

This project models the core of a bridge that turns a Stacks contract call
into a payout on Electroneum. A user calls the Stacks swap contract, which
logs an intent (order id, destination chain, address and token, expected
amount, STX amount). The backend reads the transaction from the Stacks
indexer and decodes the intent. It stores one `SwapOrder` per order id. It
withholds a 0.5% fee and pays out through an executor that sends native ETN
or an ERC-20 token from a registry. The order then becomes `completed` or
`failed`. Around that pipeline sit the token registries (backend, executor,
frontend), a bounded confirmation poller, a USD price cache, and the user
profile and statistics endpoints.

Everything the backend gets from outside is an input to the model:

- the indexer's reply (`StacksDecoder.IndexerReply`), with contract-log
  payloads already decoded from Clarity values;
- the executor's transfer (`send: Transfer -> Result<string, string>`:
  a transaction hash or the thrown error's message);
- the answers to the confirmation polls;
- the price provider's reply;
- the clock (`now`, in milliseconds).

The store is a `map` keyed by order id, updated by methods of a class.

JavaScript values are modelled explicitly:

- Truthiness of a string is non-emptiness.
- A JS number is `Option<real>`, with `None` for `NaN`. Addition absorbs
  `NaN`, and `parseFloat` reads the longest `digits[.digits]` prefix.
- `toUpperCase`/`toLowerCase` map ASCII letters. `includes` is substring
  search.

Modules, one per file:

| module | file | models |
|---|---|---|
| `Wrappers` | wrappers.dfy | `Option`, `Result` |
| `JsValues` | js_values.dfy | truthiness, case mapping, `includes`, `parseFloat`, `NaN` arithmetic |
| `SwapOrderModel` | swap_order_model.dfy | the `SwapOrder` document and its schema |
| `StacksDecoder` | stacks_decoder.dfy | `getTransactionInfo` / `getTransactionStatus` |
| `ConfirmationPoller` | confirmation_poller.dfy | `broadcastAndWaitForConfirmation` |
| `ElectroneumExecutor` | electroneum_executor.dfy | the executor's token registry and `executeSwap` |
| `BackendTokens` | backend_tokens.dfy | the backend token config and its lookups |
| `FrontendTokens` | frontend_tokens.dfy | the frontend token list and `getTokenBySymbol` |
| `RegistryAgreement` | registry_agreement.dfy | how the three registries relate |
| `SwapController` | swap_controller.dfy | `createSwapOrder`, `getOrderStatus`, `pollOrderStatus` |
| `PriceService` | price_service.dfy | the price cache, `getPrice`, `getExchangeRate` |
| `Sorting` | sorting.dfy | the descending sorts and `slice` used by the user endpoints |
| `UserController` | user_controller.dfy | `createUser`, `updateUser`, `getUserActivity`, `getUserStats` |

`createSwapOrder` is specified by the function `SwapController.CreateOutcome`.
It gives the response and the documents saved, in order. The method
`SwapController.OrderStore.CreateSwapOrder` follows the handler step by step
and is proved to answer and save exactly that. The lemmas then state what
the handler promises:

- a guard that stops early saves nothing;
- otherwise exactly a fresh pending order is saved, then its one terminal
  update;
- stored orders are never rewritten;
- resubmitting a processed transaction answers "Order already exists", so
  an order is paid out at most once.

The fee has a fixed scale. The handler divides `expectedAmount` by 10^6,
whatever the destination token's decimals (18 for every ERC-20 in the
backend config). `SwapController.FixedMicroScale` and
`SwapController.FiveMillionPaysOut` state this: "5000000" pays out 4.975
tokens.

## Model

| member | source | states |
|---|---|---|
| JsValues.ToUpper | backend/src/config/tokens.ts:38 | the result has the input's length; each lower-case ASCII letter becomes the upper-case letter 32 code points below it, every other character is kept, and no lower-case letter is left |
| JsValues.ToLower | frontend/src/lib/config/tokens.ts:51 | the result has the input's length; each upper-case ASCII letter becomes the lower-case letter 32 code points above it, every other character is kept, and no upper-case letter is left |
| JsValues.LowerKeepsLowerCaseOccurrence | backend/src/controllers/swap.controller.ts:86 | a word without upper-case letters that occurs in a string still occurs after lower-casing it |
| JsValues.ParseFloat | backend/src/controllers/swap.controller.ts:94 | a parsed number is never negative; text starting with a digit is a number; empty text, or text starting with neither a digit nor a dot, is NaN |
| JsValues.LowerOfUpper | frontend/src/lib/config/tokens.ts:51 | lower-casing after upper-casing is plain lower-casing, so a lower-cased comparison ignores the input's case |
| JsValues.Includes | backend/src/controllers/swap.controller.ts:86 | true exactly when the pattern occurs at some position of the text |
| JsValues.ParseFloatDigits | backend/src/controllers/swap.controller.ts:95 | a string of digits parses to its decimal value; an empty string or one starting with neither a digit nor a dot parses to NaN |
| JsValues.ParseFloatOfNat | backend/src/controllers/swap.controller.ts:95 | `parseFloat` of a natural number's decimal text gives that number back |
| JsValues.Add | backend/src/controllers/user.controller.ts:115 | a sum is a number exactly when both operands are; NaN absorbs |
| JsValues.FromMicro | backend/src/services/stacksService.ts:74-79 | dividing by 10^6 keeps NaN as NaN and the quotient times 10^6 is the input |
| SwapOrderModel.ParseStatus | backend/src/models/swapOrder.model.ts:12-16 | a status name is accepted exactly when it is one of "pending", "completed", "failed", and maps back to that name |
| SwapOrderModel.StatusNameRoundTrip | backend/src/models/swapOrder.model.ts:12-16 | every status survives a write and read of its name |
| SwapOrderModel.NewOrder | backend/src/models/swapOrder.model.ts:5-21 | a new document is pending, has no destination hash or error, has both timestamps at the creation time, and passes the required-field validation exactly when all seven required strings are non-empty |
| SwapOrderModel.KeyedStoreIdsUnique | backend/src/models/swapOrder.model.ts:5 | in a store keyed by order id no two documents share an order id (the unique index) |
| StacksDecoder.Field | backend/src/services/stacksService.ts:64-73 | a log field is read exactly when present and non-empty, with its value |
| StacksDecoder.ScanTransaction | backend/src/services/stacksService.ts:40-86 | the field-by-field `forEach` over the events yields exactly the record `Decode` specifies, or the thrown error |
| StacksDecoder.GetTransactionInfo | backend/src/services/stacksService.ts:18-92 | a fetch error gives the error shape, a non-ok reply `{status: false}`, otherwise the decoded record (or the error shape when decoding throws) |
| StacksDecoder.GetTransactionStatus | backend/src/services/stacksService.ts:149-230 | a non-ok reply or a throwing decode gives `{success: false, error}`, otherwise the decoded record |
| StacksDecoder.StatusMeansSuccess | backend/src/services/stacksService.ts:28 | `status` is true exactly when `tx_status` is "success"; the status call returns a record exactly when the info call does |
| StacksDecoder.ScanKeepsHeader | backend/src/services/stacksService.ts:26-38 | the event scan never changes the transaction id, status, block or sender |
| StacksDecoder.MissingEventsNoIntent | backend/src/services/stacksService.ts:40 | without an event array every intent field stays null |
| StacksDecoder.NoLogKeepsIntent | backend/src/services/stacksService.ts:56-61 | events other than a decoded contract log leave the intent and the logged amount alone |
| StacksDecoder.LastLogWins | backend/src/services/stacksService.ts:64-73 | the last decoded contract log decides all five intent fields |
| StacksDecoder.AmountFromLastLogCarryingIt | backend/src/services/stacksService.ts:74-79 | `stxAmountFromLog` comes from the last log carrying a non-empty `stx-amount` |
| StacksDecoder.AmountNeverReset | backend/src/services/stacksService.ts:74-79 | logs without an amount never reset `stxAmountFromLog` |
| StacksDecoder.UndecodableLogSkipped | backend/src/services/stacksService.ts:81-83 | a contract log whose payload does not decode is skipped as if absent |
| StacksDecoder.MalformedAssetAborts | backend/src/services/stacksService.ts:43-53 | an `stx_asset` event without `asset` throws, so both calls answer with their error shape |
| StacksDecoder.SealAbort | backend/src/services/stacksService.ts:41 | once the callback has thrown on a prefix, the whole scan has thrown |
| StacksDecoder.DecodedFieldsTruthy | backend/src/services/stacksService.ts:64-73 | every intent field of a decoded record is a non-empty string |
| ConfirmationPoller.Terminal | backend/src/services/stacksService.ts:250-259 | a poll ends the wait only when it returned, carrying the broadcast's transaction id |
| ConfirmationPoller.BroadcastAndWaitForConfirmation | backend/src/services/stacksService.ts:232-281 | the loop returns what `BroadcastAndWait` specifies, after at most 30 counted attempts, exactly 30 on timeout, with every earlier poll non-terminal on success |
| ConfirmationPoller.TimeoutExactlyWhenNeverTerminal | backend/src/services/stacksService.ts:246-276 | the wait times out exactly when none of the first 30 polls is terminal |
| ConfirmationPoller.ConfirmedByFirstTerminal | backend/src/services/stacksService.ts:250-259 | the first terminal poll decides the confirmation |
| ConfirmationPoller.ViewOf | backend/src/services/stacksService.ts:250-256 | the objects the status call returns never show `success`, `orderData` or `txData.tx_status` to the loop |
| ConfirmationPoller.PollerNeverConfirms | backend/src/services/stacksService.ts:248-276 | fed by the status call, every successful broadcast ends in the timeout error |
| ConfirmationPoller.CorrectedViewOf | backend/src/services/stacksService.ts:250-256 | the corrected reading reports success exactly when the record's status flag is set |
| ConfirmationPoller.CorrectedPollerConfirms | backend/src/services/stacksService.ts:246-259 | with the corrected reading, a successful status in any of the first 30 polls confirms |
| ElectroneumExecutor.RegistryShape | backend/src/services/electroneumService.ts:15-21 | the registry has five symbols; ETN alone maps to the zero address |
| ElectroneumExecutor.PlanSwap | backend/src/services/electroneumService.ts:87-103 | an empty token fails with "Invalid destinationToken", an unlisted one with "Token no soportado"; ETN plans a native transfer, any other listed token a transfer on its registry contract; recipient and amount are passed through |
| ElectroneumExecutor.ExecuteSwap | backend/src/services/electroneumService.ts:82-104 | an unlisted token fails without calling the sender; a listed one returns exactly the sender's outcome for the planned transfer |
| ElectroneumExecutor.DispatchByToken | backend/src/services/electroneumService.ts:95-103 | ETN dispatches a native transfer, every other listed token a token transfer to its own non-zero contract |
| BackendTokens.GetTokenAddress | backend/src/config/tokens.ts:37-40 | an address is returned exactly when the symbol is valid, and it is the registry entry's address |
| BackendTokens.IsValidToken | backend/src/config/tokens.ts:43-45 | a symbol is valid exactly when its upper-cased form is one of the four declared symbols |
| BackendTokens.LookupIgnoresCase | backend/src/config/tokens.ts:37-45 | a symbol and its upper-case form get the same answers |
| BackendTokens.RegistryEntriesWellFormed | backend/src/config/tokens.ts:10-33 | each entry's symbol is its key and its decimals are 18 |
| BackendTokens.NoSymbolIsValid | backend/src/config/tokens.ts:9-45 | no symbol is valid and no address is ever returned |
| BackendTokens.RegisteredSymbolsRejected | backend/src/config/tokens.ts:9-45 | each registered symbol is itself rejected |
| BackendTokens.FindIgnoringCase | backend/src/config/tokens.ts:38 | the corrected search returns a key equal to the symbol ignoring case, or none exactly when no key matches |
| BackendTokens.CorrectedTokenAddress | backend/src/config/tokens.ts:37-40 | the corrected lookup finds an address exactly when some key equals the symbol ignoring case |
| BackendTokens.SymbolsDistinctIgnoringCase | backend/src/config/tokens.ts:9-34 | no two keys coincide ignoring case |
| BackendTokens.CorrectedLookupFindsRegistered | backend/src/config/tokens.ts:37-40 | any casing of a registered symbol finds that symbol's corrected address |
| FrontendTokens.Find | frontend/src/lib/config/tokens.ts:50-52 | the result matches the symbol ignoring case and is the first such entry; none exactly when no entry matches |
| FrontendTokens.GetTokenBySymbol | frontend/src/lib/config/tokens.ts:49-53 | a returned token's symbol equals the input ignoring case; undefined exactly when none does |
| FrontendTokens.FindIgnoresCase | frontend/src/lib/config/tokens.ts:51 | the answer is the same for the input and its upper-case form |
| FrontendTokens.SymbolsDistinctIgnoringCase | frontend/src/lib/config/tokens.ts:11-47 | no two listed symbols coincide ignoring case, so at most one entry matches |
| FrontendTokens.ListedTokenFound | frontend/src/lib/config/tokens.ts:11-53 | any casing of a listed symbol finds that listed token |
| FrontendTokens.OnlyNativeHasZeroAddress | frontend/src/lib/config/tokens.ts:12-18 | ETN is the only entry with the zero address |
| RegistryAgreement.RegistriesDisagree | backend/src/config/tokens.ts:24-30 | the backend's sBNB address is the executor's sETH address, and the backend's sETH address is none of the executor's |
| RegistryAgreement.FrontendAgreesWithExecutor | frontend/src/lib/config/tokens.ts:11-47 | every frontend token has the executor's address for its symbol |
| RegistryAgreement.ExecutorSymbolsListed | backend/src/services/electroneumService.ts:15-21 | every executor symbol is listed in the frontend |
| RegistryAgreement.CorrectedRegistryAgrees | backend/src/config/tokens.ts:9-34 | the corrected backend registry has the executor's symbols other than ETN, each with the executor's address |
| SwapController.IsSupportedChain | backend/src/controllers/swap.controller.ts:86 | a chain name containing "electroneum" in lower case is supported, and no name shorter than that word is |
| SwapController.GrossAmount | backend/src/controllers/swap.controller.ts:94 | the parsed amount read in millionths: never negative, times 10^6 the parsed number, NaN exactly when the text does not parse |
| SwapController.NetAmount | backend/src/controllers/swap.controller.ts:94-98 | NaN exactly when the gross amount is, otherwise between 0 and the gross amount |
| SwapController.FeeWithheld | backend/src/controllers/swap.controller.ts:94-98 | the net amount is 99.5% of the gross amount, never negative, strictly below it when positive, and NaN exactly when the gross is |
| SwapController.FixedMicroScale | backend/src/controllers/swap.controller.ts:94-98 | `n` base units become `n / 10^6` tokens and `0.995 n / 10^6` are sent, whatever the token |
| SwapController.FiveMillionPaysOut | backend/src/controllers/swap.controller.ts:94-98 | "5000000" is 5 tokens gross and 4.975 net |
| SwapController.ChainTestIgnoresCase | backend/src/controllers/swap.controller.ts:86 | the chain test gives the same answer for any casing of the chain |
| SwapController.OrderStore.CreateSwapOrder | backend/src/controllers/swap.controller.ts:9-158 | the handler answers and saves exactly what `CreateOutcome` specifies, and the store stays keyed by order id with every document valid |
| SwapController.OrderStore.Settle | backend/src/controllers/swap.controller.ts:86-147 | the payout step returns the response and final document `Settlement` specifies and saves that document |
| SwapController.GuardsSaveNothing | backend/src/controllers/swap.controller.ts:17-83 | a missing txId, a pending or failed transaction, incomplete data, a duplicate order or a failed validation saves nothing; every other response saves exactly two documents |
| SwapController.SavesPendingThenTerminal | backend/src/controllers/swap.controller.ts:71-139 | when anything is saved, it is first a fresh pending order under an unused order id, built from the decoded intent with the txId as `externalTxHash`, then its one terminal update, which the response carries |
| SwapController.DuplicateAnswersStoredOrder | backend/src/controllers/swap.controller.ts:59-68 | an order id already stored is answered with the stored order and nothing changes |
| SwapController.ResubmissionIsRejected | backend/src/controllers/swap.controller.ts:59-68 | resubmitting a processed transaction, at any time and whatever the executor would do, returns the stored final order and saves nothing |
| SwapController.StoredOrdersUntouched | backend/src/controllers/swap.controller.ts:59-83 | a call never rewrites an order that was already stored |
| SwapController.ValidationFailsOnlyOnSender | backend/src/controllers/swap.controller.ts:71-83 | for a complete intent, the first save fails (500) exactly when the transaction's sender is empty |
| SwapController.UnsupportedChainSkipsExecutor | backend/src/controllers/swap.controller.ts:135-147 | a chain without "electroneum" fails the order with "Unsupported chain: <chain>" (400) and the executor's behaviour does not matter |
| SwapController.PayoutRecorded | backend/src/controllers/swap.controller.ts:100-134 | on a supported chain the executor's hash completes the order (201) and its error message fails it (500) |
| SwapController.OrderStore.GetOrderStatus | backend/src/controllers/swap.controller.ts:160-188 | the stored order with that id is returned, and not-found (404) exactly when none is stored |
| SwapController.OrderStore.PollOrderStatus | backend/src/controllers/swap.controller.ts:190-219 | the stored order and its status are returned, and not-found (404) exactly when none is stored |
| PriceService.PricesOf | backend/src/services/priceService.ts:44-46 | the returned price map has the cache's symbols, each at its cached price |
| PriceService.PriceCache.GetAllPrices | backend/src/services/priceService.ts:39-95 | the loop updates the cache and answers exactly as `AllPrices` specifies |
| PriceService.PriceCache.GetPrice | backend/src/services/priceService.ts:100-108 | `getAllPrices` followed by the `getPrice` guard |
| PriceService.PriceCache.GetExchangeRate | backend/src/services/priceService.ts:113-122 | `getAllPrices` followed by the `getExchangeRate` guard |
| PriceService.FreshCacheServed | backend/src/services/priceService.ts:33-47 | a non-empty cache younger than 60000 ms is returned unchanged, whatever the provider would answer |
| PriceService.SuccessfulFetchMerges | backend/src/services/priceService.ts:62-78 | after a fetch `lastFetch` is now, returned symbols are cached at the same prices, and entries the provider did not answer are kept |
| PriceService.FetchedPricesByCoinId | backend/src/services/priceService.ts:65-68 | a symbol is returned exactly when the provider answered its coin id, at the provider's price |
| PriceService.MergeAgreesWithResult | backend/src/services/priceService.ts:65-76 | the merge overwrites exactly the fetched symbols with the returned prices and keeps the rest |
| PriceService.FetchedKeys | backend/src/services/priceService.ts:65-67 | a symbol is fetched exactly when one of its coin ids was answered |
| PriceService.FetchedValue | backend/src/services/priceService.ts:66-67 | with distinct symbols, an answered coin id gives its symbol the provider's price |
| PriceService.FailedFetchFallsBack | backend/src/services/priceService.ts:82-93 | a failed fetch serves a non-empty cache whatever its age and throws "Failed to fetch prices and no cache available" on an empty one; the cache and `lastFetch` stay |
| PriceService.PriceOf | backend/src/services/priceService.ts:100-108 | a price is returned exactly when present and non-zero; otherwise "Price not found for token: <symbol>" |
| PriceService.ExchangeRate | backend/src/services/priceService.ts:113-122 | a rate is returned exactly when both prices are present and non-zero, and the rate times the target price is the source price; otherwise the "Price not found for tokens" error |
| PriceService.RateReciprocal | backend/src/services/priceService.ts:121 | the rate one way times the rate the other way is 1 |
| Sorting.Insert | backend/src/controllers/user.controller.ts:127 | inserting adds exactly the one element |
| Sorting.SortDesc | backend/src/controllers/user.controller.ts:127 | the sort is a permutation of its input |
| Sorting.InsertKeepsDescending | backend/src/controllers/user.controller.ts:127 | inserting into a descending sequence keeps it descending on numeric keys |
| Sorting.SortDescIsDescending | backend/src/controllers/user.controller.ts:127 | the sorted sequence is descending on its numeric keys |
| Sorting.Take | backend/src/controllers/user.controller.ts:128 | `slice(0, n)` is the prefix of `min(n, length)` elements, the whole sequence when it is short enough |
| UserController.Apply | backend/src/controllers/user.controller.ts:37-41 | an update sets exactly the fields it carries and keeps the address and every other field |
| UserController.ApplyIdempotent | backend/src/controllers/user.controller.ts:38 | applying the same update twice is applying it once |
| UserController.EmptyUpdateKeepsUser | backend/src/controllers/user.controller.ts:38 | an update without fields changes nothing |
| UserController.UserStore.CreateUser | backend/src/controllers/user.controller.ts:6-33 | an existing address answers "User already exists" and inserts nothing; otherwise the profile is inserted under its address |
| UserController.UserStore.UpdateUser | backend/src/controllers/user.controller.ts:35-54 | an unknown address answers not-found and changes nothing; otherwise that profile alone is updated and returned |
| UserController.Filter | backend/src/controllers/user.controller.ts:99-103 | the filter keeps exactly the elements that satisfy the test, each as often as it occurs in the input |
| UserController.ActivityIsUsersOrders | backend/src/controllers/user.controller.ts:81-84 | the activity has at most 10 orders, each one of the user's own |
| UserController.Activity | backend/src/controllers/user.controller.ts:77-92 | the activity has exactly `min(10, number of the user's orders)` entries |
| UserController.ActivityNewestFirst | backend/src/controllers/user.controller.ts:82-83 | the activity is newest first and no order left out is newer than one returned |
| UserController.ActivityOmitsOnlyOlder | backend/src/controllers/user.controller.ts:81-84 | the returned and omitted orders are together the user's orders; a user with at most 10 orders gets all of them, a user with more gets exactly 10 |
| UserController.SortedNewestFirst | backend/src/controllers/user.controller.ts:82 | orders sorted by `createdAt` descending come newest first |
| UserController.SuccessRate | backend/src/controllers/user.controller.ts:104 | 0 without orders; otherwise `100·completed/total` rounded half up |
| UserController.SuccessRateIsPercentage | backend/src/controllers/user.controller.ts:104 | with no more completed orders than orders the rate is at most 100, and exactly 100 when every order completed |
| UserController.SuccessRateWithinHalf | backend/src/controllers/user.controller.ts:104 | the rounded rate lies within one half of the exact percentage `100·completed/total`: at or above it minus one half, below it plus one half |
| UserController.Days | backend/src/controllers/user.controller.ts:107-109 | the set holds exactly the UTC days on which an order was created |
| UserController.ActiveDaysBounded | backend/src/controllers/user.controller.ts:107-110 | there are never more active days than orders, and at least one when there is an order |
| UserController.SameDayCountsOnce | backend/src/controllers/user.controller.ts:107-110 | two orders created on the same day count as one active day |
| UserController.VolumeCountsCompletedOnly | backend/src/controllers/user.controller.ts:113-115 | an order moves the volume only when completed, and then by its STX amount |
| UserController.VolumeNumeric | backend/src/controllers/user.controller.ts:113-115 | the volume is a number exactly when every completed order's STX amount is |
| UserController.Volume | backend/src/controllers/user.controller.ts:113-115 | the reduce starts at 0, so a user without a completed order has volume 0 |
| UserController.Get | backend/src/controllers/user.controller.ts:122 | a key reads a value exactly when it is in the map |
| UserController.Tokens | backend/src/controllers/user.controller.ts:118 | the map has no more keys than entries |
| UserController.TokensAreKeys | backend/src/controllers/user.controller.ts:118 | a token is a key of the map exactly when some entry carries it |
| UserController.SumStxNumeric | backend/src/controllers/user.controller.ts:113-115 | a sum of STX amounts is a number exactly when every amount is |
| UserController.SetThenGet | backend/src/controllers/user.controller.ts:123 | after `set` the key reads the new value and every other key reads as before |
| UserController.SetTokens | backend/src/controllers/user.controller.ts:123 | `set` adds its key to the map's keys |
| UserController.SetKeepsDistinct | backend/src/controllers/user.controller.ts:123 | `set` never duplicates a key |
| UserController.CollectHoldings | backend/src/controllers/user.controller.ts:118-124 | the `forEach` updating the map in place yields exactly `GroupHoldings` of the completed orders |
| UserController.HoldingsTokens | backend/src/controllers/user.controller.ts:118-124 | the holdings have no token twice, and their tokens are exactly the destination tokens of the completed orders |
| UserController.OrderTokens | backend/src/controllers/user.controller.ts:118-120 | a token is among the orders' destination tokens exactly when some order has it as destination |
| UserController.HoldingsAreTotals | backend/src/controllers/user.controller.ts:118-124 | when every expected amount parses, any token reads as the sum of that token's expected amounts if it has an entry, and a token without an entry has no orders adding to it (total 0) |
| UserController.NaNSumRestarts | backend/src/controllers/user.controller.ts:122-123 | after any sequence of orders that leaves a token's sum NaN, the token's next order makes the entry that order's own parsed amount: `NaN || 0` restarts the sum from 0 |
| UserController.NaNSumExample | backend/src/controllers/user.controller.ts:118-124 | an expected amount "abc" leaves its token's entry NaN, and a following "7" for the same token makes it 7 |
| UserController.TopHoldings | backend/src/controllers/user.controller.ts:126-132 | exactly `min(3, number of holdings)` entries |
| UserController.TopHoldingsAreLargest | backend/src/controllers/user.controller.ts:126-132 | the top holdings are holdings, scaled by 10^-6, largest first, none below a holding left out |
| UserController.GetUserStats | backend/src/controllers/user.controller.ts:94-148 | `totalSwaps` counts the user's orders; the success rate, active days (never above `totalSwaps`), completed-only volume and top holdings are the specified functions of them, and the rate is at most 100 |

## Findings

| source | as written | input that shows it | evidently intended | confidence | as-written member | corrected member |
|---|---|---|---|---|---|---|
| backend/src/services/stacksService.ts:250-256 | the poller tests `status.success`, `status.orderData` and `status.txData?.tx_status`, none of which `getTransactionStatus` ever returns | any successful broadcast: 30 polls of a confirmed transaction end in "Transaction confirmation timeout" | confirm once the record's `status` flag is set | high, not executed | ConfirmationPoller.PollerNeverConfirms | ConfirmationPoller.CorrectedPollerConfirms |
| backend/src/config/tokens.ts:37-45 | the lookups upper-case the symbol, but every key starts with a lower-case `s` | `isValidToken("sUSDC")` is false and `getTokenAddress("sUSDC")` is null | a case-insensitive match against the registered symbols | high, not executed | BackendTokens.NoSymbolIsValid | BackendTokens.CorrectedLookupFindsRegistered |
| backend/src/config/tokens.ts:24-30 | the backend gives sBNB the address the executor and frontend use for sETH, and gives sETH an address neither uses | sBNB maps to 0xA50B70C81F2CccDa119809274EB205c453A23fb5 | the executor's addresses (sBNB 0x9F1DA3Fe5C5C7bEd3793FCC71B4B9eB461251d30, sETH 0xA50B70C81F2CccDa119809274EB205c453A23fb5) | medium, not executed | RegistryAgreement.RegistriesDisagree | RegistryAgreement.CorrectedRegistryAgrees |

The pipeline itself (`SwapController`) does not use either backend lookup.
It keeps the code's behaviour everywhere. The poller is not on its path.

## Left out

- Network and library calls (the indexer `fetch`, `hexToCV`/`cvToJSON`,
  `broadcastTransaction`, the price provider, and the ethers
  `sendTransaction`/`decimals`/`transfer`/`wait`) are inputs. So are
  `sendETN` and `sendToken`: the executor's `send` parameter stands for
  both. The provider and wallet construction is not modelled.
- Contract-log payloads arrive decoded. A payload whose Clarity value does
  not decode, or whose `value` is falsy, is `None`. Both are skipped, as
  the source's inner catch and guard do.
- `listenForSwapOrderEvents` (an unbounded timer), `getOrderCount` and
  `getOrder` (read-only contract calls) are not modelled.
- The credit-score calculator, the lending and contract-call wrappers, the
  profile endpoint, the HTTP routes and their schemas, and the frontend
  services are not modelled. The quote endpoint and `calculateSwapAmount`
  are not modelled either.
- backend/src/models/user.model.ts is not part of this model. The profile
  fields come from the destructuring in `createUser`, and the schema's own
  validation on insert and update is not modelled.
- Concurrency is not modelled. Two concurrent submissions of the same
  order are sequential here, as insert-if-absent.
- Store failures other than the required-field validation are not
  modelled. A failing second save, a lost connection or a duplicate-key
  error from a race are examples.
- JavaScript floating point is exact real arithmetic here: the fee, the
  rescaling by 10^6, the exchange-rate division and the `Math.round` in
  the success rate. `toFixed` and `toString` formatting of amounts is not
  modelled. `SwapOrder.stxAmount` holds the number whose text the schema
  stores, so `parseFloat(stxAmount)` is that number.
- JsValues.ParseFloat: leading whitespace, signs, exponents and
  `Infinity` are not modelled. The amounts it reads are unsigned decimal
  strings from the contract log.
- JsValues.ToUpper and JsValues.ToLower map ASCII letters only. JavaScript
  maps every Unicode letter.
- `getOrderStatus` and `pollOrderStatus` take the order id as a string.
  The numeric id that `pollOrderStatus` accepts is not modelled.
- `createSwapOrder`'s `txId` is falsy only when empty. Missing and
  non-string bodies are not modelled.
- UserController.TopHoldings: descending order is proved only among
  numeric sums. A NaN sum stays wherever the stable insertion sort leaves
  it, which may differ from the engine's `Array.prototype.sort`.
- Ties in `getUserActivity`'s `createdAt` sort keep store order. The store
  itself does not specify an order for ties.
- `getAllPrices` with a provider reply whose coin entry lacks `usd` is not
  modelled. A quote always carries a price. A missing `last_updated_at` is
  written as 0.
- Object-prototype keys (`toString`, `__proto__`) are not modelled, neither
  in the registry lookups nor in the `prices[symbol]` lookups of
  `getPrice` and `getExchangeRate`: a symbol is found only when it is a
  key the code itself wrote.
