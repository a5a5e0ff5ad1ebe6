/** How the three token registries relate: the executor's map, the
    frontend's list and the backend configuration. */
module RegistryAgreement {
  import BackendTokens
  import ElectroneumExecutor
  import FrontendTokens

  /** The backend configuration files the executor's `sETH` address under
      `sBNB`, and under `sETH` an address the executor does not know. */
  lemma RegistriesDisagree()
    ensures BackendTokens.Registry["sBNB"].address != ElectroneumExecutor.Tokens["sBNB"]
    ensures BackendTokens.Registry["sBNB"].address == ElectroneumExecutor.Tokens["sETH"]
    ensures BackendTokens.Registry["sETH"].address !in ElectroneumExecutor.Tokens.Values
  {
    ElectroneumExecutor.RegistryShape();
    var stray := BackendTokens.Registry["sETH"].address;
    forall k | k in ElectroneumExecutor.Tokens ensures ElectroneumExecutor.Tokens[k] != stray {
      assert k in {"ETN", "sUSDC", "sUSDT", "sBNB", "sETH"};
    }
  }

  /** The frontend list and the executor map give every listed symbol
      the same address. */
  lemma FrontendAgreesWithExecutor()
    ensures forall t :: t in FrontendTokens.Tokens ==>
              t.symbol in ElectroneumExecutor.Tokens && ElectroneumExecutor.Tokens[t.symbol] == t.address
  {
  }

  /** Every executor symbol is listed by the frontend. */
  lemma ExecutorSymbolsListed()
    ensures forall k :: k in ElectroneumExecutor.Tokens ==> exists t :: t in FrontendTokens.Tokens && t.symbol == k
  {
    ElectroneumExecutor.RegistryShape();
    var ts := FrontendTokens.Tokens;
    forall k | k in ElectroneumExecutor.Tokens ensures exists t :: t in ts && t.symbol == k {
      assert k in {"ETN", "sUSDC", "sUSDT", "sBNB", "sETH"};
      var i := if k == "ETN" then 0 else if k == "sUSDC" then 1 else if k == "sUSDT" then 2
               else if k == "sBNB" then 3 else 4;
      assert ts[i] in ts && ts[i].symbol == k;
    }
  }

  /** The corrected backend registry covers the executor's synthetic
      assets with the executor's addresses. */
  lemma CorrectedRegistryAgrees()
    ensures BackendTokens.CorrectedRegistry.Keys == ElectroneumExecutor.Tokens.Keys - {ElectroneumExecutor.NativeSymbol}
    ensures forall k :: k in BackendTokens.CorrectedRegistry ==>
              BackendTokens.CorrectedRegistry[k].address == ElectroneumExecutor.Tokens[k]
  {
    ElectroneumExecutor.RegistryShape();
  }
}
