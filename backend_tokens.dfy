/** The backend's token registry (backend/src/config/tokens.ts): four
    synthetic assets keyed by symbol, looked up after upper-casing the
    caller's symbol. */
module BackendTokens {
  import opened Wrappers
  import opened JsValues

  datatype TokenConfig = TokenConfig(symbol: string, address: string, decimals: nat, name: string)

  /** `ELECTRONEUM_TOKENS` as declared. */
  const Registry: map<string, TokenConfig> := map[
    "sUSDC" := TokenConfig("sUSDC", "0x38334FE9b4e7D2A7e92372B446a9820E8eF3Df3d", 18, "Stacks USDC"),
    "sUSDT" := TokenConfig("sUSDT", "0x09cF09d871b26984f052E7631EaCBA9df089E3dA", 18, "Stacks USDT"),
    "sBNB" := TokenConfig("sBNB", "0xA50B70C81F2CccDa119809274EB205c453A23fb5", 18, "Stacks BNB"),
    "sETH" := TokenConfig("sETH", "0x93b4edf2633b4A08880be7Fe00913A7041f1E3ff", 18, "Stacks ETH")
  ]

  /** The registry's keys in declaration order. */
  const Symbols: seq<string> := ["sUSDC", "sUSDT", "sBNB", "sETH"]

  /** `isValidToken(symbol)`: the upper-cased symbol is a registry key. */
  function IsValidToken(symbol: string): (b: bool)
    ensures b <==> ToUpper(symbol) in Symbols
  {
    ToUpper(symbol) in Registry
  }

  /** `getTokenAddress(symbol)`: the address of the entry under the
      upper-cased symbol, `null` when there is none. */
  function GetTokenAddress(symbol: string): (r: Option<string>)
    ensures r.Some? <==> IsValidToken(symbol)
    ensures r.Some? ==> r.value == Registry[ToUpper(symbol)].address
  {
    var key := ToUpper(symbol);
    if key in Registry then Some(Registry[key].address) else None
  }

  /** Both lookups answer the same for a symbol and its upper-case form. */
  lemma LookupIgnoresCase(symbol: string)
    ensures IsValidToken(ToUpper(symbol)) == IsValidToken(symbol)
    ensures GetTokenAddress(ToUpper(symbol)) == GetTokenAddress(symbol)
  {
    ToUpperIdempotent(symbol);
  }

  /** Every entry is filed under its own symbol and declares 18 decimals,
      and the keys are exactly `Symbols`. */
  lemma RegistryEntriesWellFormed()
    ensures Registry.Keys == set k | k in Symbols
    ensures forall k :: k in Registry ==> Registry[k].symbol == k && Registry[k].decimals == 18
  {
  }

  /** Every key starts with a lower-case `s`, which an upper-cased symbol
      never has: both lookups reject every symbol, the registered ones
      included. */
  lemma {:induction false} NoSymbolIsValid(symbol: string)
    ensures !IsValidToken(symbol)
    ensures GetTokenAddress(symbol) == None
  {
    var key := ToUpper(symbol);
    forall k | k in Registry ensures k != key {
      assert |k| > 0 && k[0] == 's';
      if |key| > 0 {
        assert !IsLower(key[0]);
      }
    }
  }

  /** The registered symbols themselves, as a caller would pass them. */
  lemma RegisteredSymbolsRejected()
    ensures forall k :: k in Registry ==> GetTokenAddress(k) == None && !IsValidToken(k)
  {
    forall k | k in Registry ensures GetTokenAddress(k) == None && !IsValidToken(k) {
      NoSymbolIsValid(k);
    }
  }

  // ---------------------------------------------------------------------
  // Corrected registry: the destination-chain addresses the executor and
  // the frontend use, looked up ignoring case.

  const CorrectedRegistry: map<string, TokenConfig> := map[
    "sUSDC" := TokenConfig("sUSDC", "0x38334FE9b4e7D2A7e92372B446a9820E8eF3Df3d", 18, "Stacks USDC"),
    "sUSDT" := TokenConfig("sUSDT", "0x09cF09d871b26984f052E7631EaCBA9df089E3dA", 18, "Stacks USDT"),
    "sBNB" := TokenConfig("sBNB", "0x9F1DA3Fe5C5C7bEd3793FCC71B4B9eB461251d30", 18, "Stacks BNB"),
    "sETH" := TokenConfig("sETH", "0xA50B70C81F2CccDa119809274EB205c453A23fb5", 18, "Stacks ETH")
  ]

  /** The first key of `keys` equal to `symbol` once both are upper-cased. */
  function FindIgnoringCase(keys: seq<string>, symbol: string): (r: Option<string>)
    ensures r.Some? ==> r.value in keys && ToUpper(r.value) == ToUpper(symbol)
    ensures r.None? <==> forall k :: k in keys ==> ToUpper(k) != ToUpper(symbol)
  {
    if keys == [] then None
    else if ToUpper(keys[0]) == ToUpper(symbol) then Some(keys[0])
    else FindIgnoringCase(keys[1..], symbol)
  }

  /** The corrected `getTokenAddress`: the entry whose key equals the
      symbol ignoring case. */
  function CorrectedTokenAddress(symbol: string): (r: Option<string>)
    ensures r.Some? <==> exists k :: k in CorrectedRegistry && ToUpper(k) == ToUpper(symbol)
  {
    assert CorrectedRegistry.Keys == set k | k in Symbols;
    match FindIgnoringCase(Symbols, symbol)
    case Some(k) => Some(CorrectedRegistry[k].address)
    case None => None
  }

  lemma SymbolsDistinctIgnoringCase()
    ensures forall i, j :: 0 <= i < j < |Symbols| ==> ToUpper(Symbols[i]) != ToUpper(Symbols[j])
  {
    assert ToUpper(Symbols[0]) == "SUSDC";
    assert ToUpper(Symbols[1]) == "SUSDT";
    assert ToUpper(Symbols[2]) == "SBNB";
    assert ToUpper(Symbols[3]) == "SETH";
  }

  /** The corrected lookup accepts every registered symbol in any casing
      and answers with that symbol's own address. */
  lemma CorrectedLookupFindsRegistered(k: string, symbol: string)
    requires k in CorrectedRegistry && ToUpper(symbol) == ToUpper(k)
    ensures CorrectedTokenAddress(symbol) == Some(CorrectedRegistry[k].address)
  {
    SymbolsDistinctIgnoringCase();
    var r := FindIgnoringCase(Symbols, symbol);
    assert k in Symbols;
    var i :| 0 <= i < |Symbols| && Symbols[i] == r.value;
    var j :| 0 <= j < |Symbols| && Symbols[j] == k;
    assert i == j;
  }
}
