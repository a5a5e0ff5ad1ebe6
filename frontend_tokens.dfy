/** The frontend's token list (frontend/src/lib/config/tokens.ts), searched
    by symbol ignoring case. */
module FrontendTokens {
  import opened Wrappers
  import opened JsValues

  datatype Token = Token(symbol: string, name: string, address: string, decimals: nat, icon: string)

  const ZeroAddress: string := "0x0000000000000000000000000000000000000000"

  /** `ELECTRONEUM_TOKENS`, in list order. */
  const Tokens: seq<Token> := [
    Token("ETN", "Electroneum", ZeroAddress, 18, "⚡"),
    Token("sUSDC", "Synthetic USDC", "0x38334FE9b4e7D2A7e92372B446a9820E8eF3Df3d", 18, "💵"),
    Token("sUSDT", "Synthetic USDT", "0x09cF09d871b26984f052E7631EaCBA9df089E3dA", 18, "💲"),
    Token("sBNB", "Synthetic BNB", "0x9F1DA3Fe5C5C7bEd3793FCC71B4B9eB461251d30", 18, "🟡"),
    Token("sETH", "Synthetic ETH", "0xA50B70C81F2CccDa119809274EB205c453A23fb5", 18, "💎")
  ]

  predicate SameSymbol(t: Token, symbol: string) {
    ToLower(t.symbol) == ToLower(symbol)
  }

  /** `tokens.find(...)`: the first token whose symbol equals `symbol`
      ignoring case, `undefined` when none does. */
  function Find(tokens: seq<Token>, symbol: string): (r: Option<Token>)
    ensures r.Some? ==> SameSymbol(r.value, symbol)
    ensures r.Some? ==> exists i :: 0 <= i < |tokens| && tokens[i] == r.value &&
                                    forall j :: 0 <= j < i ==> !SameSymbol(tokens[j], symbol)
    ensures r.None? <==> forall t :: t in tokens ==> !SameSymbol(t, symbol)
  {
    if tokens == [] then None
    else if SameSymbol(tokens[0], symbol) then
      Some(tokens[0])
    else
      var r := Find(tokens[1..], symbol);
      if r.Some? then
        var i :| 0 <= i < |tokens[1..]| && tokens[1..][i] == r.value &&
                 forall j :: 0 <= j < i ==> !SameSymbol(tokens[1..][j], symbol);
        assert tokens[i + 1] == r.value;
        assert forall j :: 0 <= j < i + 1 ==> !SameSymbol(tokens[j], symbol) by {
          forall j | 0 <= j < i + 1 ensures !SameSymbol(tokens[j], symbol) {
            if j > 0 { assert tokens[j] == tokens[1..][j - 1]; }
          }
        }
        r
      else
        r
  }

  /** `getTokenBySymbol(symbol)`. */
  function GetTokenBySymbol(symbol: string): (r: Option<Token>)
    ensures r.Some? ==> r.value in Tokens && SameSymbol(r.value, symbol)
    ensures r.None? <==> forall t :: t in Tokens ==> !SameSymbol(t, symbol)
  {
    Find(Tokens, symbol)
  }

  /** The search depends on the symbol only through its lower-case form,
      so every casing of a symbol finds the same token. */
  lemma {:induction false} FindIgnoresCase(tokens: seq<Token>, a: string, b: string)
    requires ToLower(a) == ToLower(b)
    ensures Find(tokens, a) == Find(tokens, b)
  {
    if tokens != [] {
      FindIgnoresCase(tokens[1..], a, b);
    }
  }

  /** No two listed symbols are equal ignoring case, so at most one token
      can match. */
  lemma SymbolsDistinctIgnoringCase()
    ensures forall i, j :: 0 <= i < j < |Tokens| ==> ToLower(Tokens[i].symbol) != ToLower(Tokens[j].symbol)
  {
    assert ToLower(Tokens[0].symbol) == "etn";
    assert ToLower(Tokens[1].symbol) == "susdc";
    assert ToLower(Tokens[2].symbol) == "susdt";
    assert ToLower(Tokens[3].symbol) == "sbnb";
    assert ToLower(Tokens[4].symbol) == "seth";
  }

  /** Every listed token is found by its own symbol in any casing. */
  lemma ListedTokenFound(i: nat, symbol: string)
    requires i < |Tokens| && ToLower(symbol) == ToLower(Tokens[i].symbol)
    ensures GetTokenBySymbol(symbol) == Some(Tokens[i])
  {
    SymbolsDistinctIgnoringCase();
    var r := GetTokenBySymbol(symbol);
    assert Tokens[i] in Tokens;
    var k :| 0 <= k < |Tokens| && Tokens[k] == r.value;
  }

  /** `ETN` is the only token listed with the zero address. */
  lemma OnlyNativeHasZeroAddress()
    ensures forall t :: t in Tokens ==> (t.address == ZeroAddress <==> t.symbol == "ETN")
  {
  }
}
