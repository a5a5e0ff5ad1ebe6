/** The USD price cache in front of the price provider
    (backend/src/services/priceService.ts). The provider's reply and the
    clock are inputs to each call. */
module PriceService {
  import opened Wrappers

  /** How long fetched prices are served without asking again, in ms. */
  const CacheDurationMs: int := 60000

  const NoCacheMessage := "Failed to fetch prices and no cache available"

  /** Our symbol and the provider's coin id, in declaration order. */
  const CoinIds: seq<(string, string)> := [
    ("STX", "blockstack"),
    ("ETN", "electroneum"),
    ("sUSDC", "usd-coin"),
    ("sUSDT", "tether"),
    ("sBNB", "binancecoin"),
    ("sETH", "ethereum")
  ]

  /** One coin in the provider's reply; `lastUpdatedAt == 0` stands for a
      missing (falsy) timestamp. */
  datatype Quote = Quote(usd: real, lastUpdatedAt: int)

  datatype TokenPrice = TokenPrice(symbol: string, price: real, lastUpdated: int)

  /** The provider either answers with quotes keyed by coin id or fails. */
  datatype FetchOutcome = FetchFailed | Fetched(data: map<string, Quote>)

  /** `getAllPrices` either returns prices by symbol or throws `NoCacheMessage`. */
  datatype PricesResult = Prices(prices: map<string, real>) | NoPrices

  /** The cache's prices by symbol. */
  function PricesOf(cache: map<string, TokenPrice>): (r: map<string, real>)
    ensures r.Keys == cache.Keys
    ensures forall s :: s in r ==> r[s] == cache[s].price
  {
    map s | s in cache :: cache[s].price
  }

  /** The cache is served without a fetch. */
  predicate IsFresh(now: int, lastFetch: int, cache: map<string, TokenPrice>) {
    now - lastFetch < CacheDurationMs && |cache| > 0
  }

  /** The result map built by the loop over the coin ids `ids`. */
  function FetchedPrices(data: map<string, Quote>, ids: seq<(string, string)>): map<string, real>
    decreases |ids|
  {
    if ids == [] then map[]
    else
      var (symbol, coinId) := ids[|ids| - 1];
      var rest := FetchedPrices(data, ids[..|ids| - 1]);
      if coinId in data then rest[symbol := data[coinId].usd] else rest
  }

  /** The cache after the same loop. */
  function Merged(cache: map<string, TokenPrice>, data: map<string, Quote>, ids: seq<(string, string)>, now: int)
    : map<string, TokenPrice>
    decreases |ids|
  {
    if ids == [] then cache
    else
      var (symbol, coinId) := ids[|ids| - 1];
      var rest := Merged(cache, data, ids[..|ids| - 1], now);
      if coinId in data then
        var q := data[coinId];
        rest[symbol := TokenPrice(symbol, q.usd, if q.lastUpdatedAt != 0 then q.lastUpdatedAt else now)]
      else rest
  }

  /** A symbol is in the fetched result exactly when one of its coin ids
      was answered. */
  lemma {:induction false} FetchedKeys(data: map<string, Quote>, ids: seq<(string, string)>, symbol: string)
    ensures symbol in FetchedPrices(data, ids) <==>
            exists i :: 0 <= i < |ids| && ids[i].0 == symbol && ids[i].1 in data
    decreases |ids|
  {
    if ids != [] {
      var pre := ids[..|ids| - 1];
      FetchedKeys(data, pre, symbol);
      if exists i :: 0 <= i < |ids| && ids[i].0 == symbol && ids[i].1 in data {
        var i :| 0 <= i < |ids| && ids[i].0 == symbol && ids[i].1 in data;
        if i < |ids| - 1 {
          assert pre[i] == ids[i];
        }
      }
      if exists i :: 0 <= i < |pre| && pre[i].0 == symbol && pre[i].1 in data {
        var i :| 0 <= i < |pre| && pre[i].0 == symbol && pre[i].1 in data;
        assert ids[i] == pre[i];
      }
    }
  }

  /** The merge overwrites exactly the fetched symbols, each with the price
      it returns, and keeps every other cached entry as it was. */
  lemma {:induction false} MergeAgreesWithResult(cache: map<string, TokenPrice>, data: map<string, Quote>,
                                                 ids: seq<(string, string)>, now: int)
    ensures var m := Merged(cache, data, ids, now); var f := FetchedPrices(data, ids);
      && m.Keys == cache.Keys + f.Keys
      && (forall s :: s in f ==> m[s].price == f[s] && m[s].symbol == s)
      && (forall s :: s in cache && s !in f ==> m[s] == cache[s])
    decreases |ids|
  {
    if ids != [] {
      MergeAgreesWithResult(cache, data, ids[..|ids| - 1], now);
    }
  }

  /** What a call answers and the cache it leaves, as a function of the
      cache it finds. */
  function AllPrices(cache: map<string, TokenPrice>, lastFetch: int, now: int, fetch: FetchOutcome)
    : (PricesResult, map<string, TokenPrice>, int)
  {
    if IsFresh(now, lastFetch, cache) then (Prices(PricesOf(cache)), cache, lastFetch)
    else match fetch
      case Fetched(data) => (Prices(FetchedPrices(data, CoinIds)), Merged(cache, data, CoinIds, now), now)
      case FetchFailed =>
        if |cache| > 0 then (Prices(PricesOf(cache)), cache, lastFetch) else (NoPrices, cache, lastFetch)
  }

  class PriceCache {
    var prices: map<string, TokenPrice>
    var lastFetch: int

    constructor()
      ensures prices == map[] && lastFetch == 0
    {
      prices := map[];
      lastFetch := 0;
    }

    /** `getAllPrices` at time `now`; `fetch` is what the provider would
        answer if asked. */
    method GetAllPrices(now: int, fetch: FetchOutcome) returns (r: PricesResult)
      modifies this
      ensures (r, prices, lastFetch) == AllPrices(old(prices), old(lastFetch), now, fetch)
    {
      if now - lastFetch < CacheDurationMs && |prices| > 0 {
        return Prices(PricesOf(prices));
      }
      if fetch.FetchFailed? {
        if |prices| > 0 {
          return Prices(PricesOf(prices));
        }
        return NoPrices;
      }
      var data := fetch.data;
      var result: map<string, real> := map[];
      for i := 0 to |CoinIds|
        invariant result == FetchedPrices(data, CoinIds[..i])
        invariant prices == Merged(old(prices), data, CoinIds[..i], now)
      {
        assert CoinIds[..i + 1][..i] == CoinIds[..i];
        var (symbol, coinId) := CoinIds[i];
        if coinId in data {
          result := result[symbol := data[coinId].usd];
          var lastUpdated := if data[coinId].lastUpdatedAt != 0 then data[coinId].lastUpdatedAt else now;
          prices := prices[symbol := TokenPrice(symbol, data[coinId].usd, lastUpdated)];
        }
      }
      assert CoinIds[..|CoinIds|] == CoinIds;
      lastFetch := now;
      return Prices(result);
    }

    /** `getPrice`: `getAllPrices` followed by the guard. */
    method GetPrice(now: int, fetch: FetchOutcome, symbol: string) returns (r: Result<real, string>)
      modifies this
      ensures r == PriceOf(AllPrices(old(prices), old(lastFetch), now, fetch).0, symbol)
      ensures (prices, lastFetch) == (AllPrices(old(prices), old(lastFetch), now, fetch).1,
                                      AllPrices(old(prices), old(lastFetch), now, fetch).2)
    {
      var all := GetAllPrices(now, fetch);
      r := PriceOf(all, symbol);
    }

    /** `getExchangeRate`: `getAllPrices` followed by the guard. */
    method GetExchangeRate(now: int, fetch: FetchOutcome, fromToken: string, toToken: string)
      returns (r: Result<real, string>)
      modifies this
      ensures r == ExchangeRate(AllPrices(old(prices), old(lastFetch), now, fetch).0, fromToken, toToken)
      ensures (prices, lastFetch) == (AllPrices(old(prices), old(lastFetch), now, fetch).1,
                                      AllPrices(old(prices), old(lastFetch), now, fetch).2)
    {
      var all := GetAllPrices(now, fetch);
      r := ExchangeRate(all, fromToken, toToken);
    }
  }

  /** A price is usable when present and non-zero (`!prices[symbol]`). */
  predicate Usable(prices: map<string, real>, symbol: string) {
    symbol in prices && prices[symbol] != 0.0
  }

  /** The guard of `getPrice`. */
  function PriceOf(all: PricesResult, symbol: string): (r: Result<real, string>)
    ensures all.NoPrices? ==> r == Failure(NoCacheMessage)
    ensures all.Prices? ==> (r.Success? <==> Usable(all.prices, symbol))
    ensures all.Prices? && r.Success? ==> r.value == all.prices[symbol] && r.value != 0.0
    ensures all.Prices? && r.Failure? ==> r.error == "Price not found for token: " + symbol
  {
    match all
    case NoPrices => Failure(NoCacheMessage)
    case Prices(prices) =>
      if !Usable(prices, symbol) then Failure("Price not found for token: " + symbol)
      else Success(prices[symbol])
  }

  /** The guard and quotient of `getExchangeRate`. */
  function ExchangeRate(all: PricesResult, fromToken: string, toToken: string): (r: Result<real, string>)
    ensures all.NoPrices? ==> r == Failure(NoCacheMessage)
    ensures all.Prices? ==>
              (r.Success? <==> Usable(all.prices, fromToken) && Usable(all.prices, toToken))
    ensures all.Prices? && r.Success? ==> r.value * all.prices[toToken] == all.prices[fromToken]
    ensures all.Prices? && r.Failure? ==>
              r.error == "Price not found for tokens: " + fromToken + " or " + toToken
  {
    match all
    case NoPrices => Failure(NoCacheMessage)
    case Prices(prices) =>
      if !Usable(prices, fromToken) || !Usable(prices, toToken) then
        Failure("Price not found for tokens: " + fromToken + " or " + toToken)
      else Success(prices[fromToken] / prices[toToken])
  }

  /** The rate one way is the reciprocal of the rate the other way. */
  lemma RateReciprocal(all: PricesResult, a: string, b: string)
    requires ExchangeRate(all, a, b).Success?
    ensures ExchangeRate(all, b, a).Success?
    ensures ExchangeRate(all, a, b).value * ExchangeRate(all, b, a).value == 1.0
  {
    var p := all.prices;
    assert ExchangeRate(all, a, b).value == p[a] / p[b];
    assert ExchangeRate(all, b, a).value == p[b] / p[a];
  }

  // ---------------------------------------------------------------------
  // Properties of one call

  /** A fresh, non-empty cache is served as it is: the provider's answer is
      irrelevant and nothing changes. */
  lemma FreshCacheServed(cache: map<string, TokenPrice>, lastFetch: int, now: int, f1: FetchOutcome, f2: FetchOutcome)
    requires now - lastFetch < CacheDurationMs && |cache| > 0
    ensures AllPrices(cache, lastFetch, now, f1) == AllPrices(cache, lastFetch, now, f2)
    ensures AllPrices(cache, lastFetch, now, f1) == (Prices(PricesOf(cache)), cache, lastFetch)
  {
  }

  /** No symbol is listed twice. */
  predicate DistinctSymbols(ids: seq<(string, string)>) {
    forall i, j :: 0 <= i < j < |ids| ==> ids[i].0 != ids[j].0
  }

  /** With distinct symbols, an answered coin id gives its symbol the
      provider's price. */
  lemma {:induction false} FetchedValue(data: map<string, Quote>, ids: seq<(string, string)>, i: nat)
    requires DistinctSymbols(ids) && i < |ids| && ids[i].1 in data
    ensures ids[i].0 in FetchedPrices(data, ids)
    ensures FetchedPrices(data, ids)[ids[i].0] == data[ids[i].1].usd
    decreases |ids|
  {
    if i < |ids| - 1 {
      var pre := ids[..|ids| - 1];
      assert pre[i] == ids[i];
      FetchedValue(data, pre, i);
    }
  }

  /** After a successful fetch the timestamp is `now`, every returned price
      equals the cached price, the returned symbols are among the cached
      ones, and entries the provider did not answer are kept. */
  lemma SuccessfulFetchMerges(cache: map<string, TokenPrice>, lastFetch: int, now: int, data: map<string, Quote>)
    requires !IsFresh(now, lastFetch, cache)
    ensures var (r, cache', lastFetch') := AllPrices(cache, lastFetch, now, Fetched(data));
      && lastFetch' == now
      && r.Prices?
      && r.prices.Keys <= cache'.Keys
      && cache.Keys <= cache'.Keys
      && (forall s :: s in r.prices ==> cache'[s].price == r.prices[s])
      && (forall s :: s in cache && s !in r.prices ==> cache'[s] == cache[s])
  {
    MergeAgreesWithResult(cache, data, CoinIds, now);
  }

  /** The fetched result holds a symbol exactly when the provider answered
      its coin id, at the provider's price. */
  lemma FetchedPricesByCoinId(data: map<string, Quote>, i: nat)
    requires i < |CoinIds|
    ensures CoinIds[i].0 in FetchedPrices(data, CoinIds) <==> CoinIds[i].1 in data
    ensures CoinIds[i].1 in data ==> FetchedPrices(data, CoinIds)[CoinIds[i].0] == data[CoinIds[i].1].usd
  {
    FetchedKeys(data, CoinIds, CoinIds[i].0);
    if CoinIds[i].1 in data {
      FetchedValue(data, CoinIds, i);
    }
  }

  /** A failed fetch serves a non-empty cache whatever its age, and reports
      `NoCacheMessage` on an empty one; the cache and its timestamp stay. */
  lemma FailedFetchFallsBack(cache: map<string, TokenPrice>, lastFetch: int, now: int)
    requires !IsFresh(now, lastFetch, cache)
    ensures var (r, cache', lastFetch') := AllPrices(cache, lastFetch, now, FetchFailed);
      && cache' == cache && lastFetch' == lastFetch
      && (|cache| > 0 ==> r == Prices(PricesOf(cache)))
      && (|cache| == 0 ==> r == NoPrices && PriceOf(r, "STX") == Failure(NoCacheMessage))
  {
  }
}
