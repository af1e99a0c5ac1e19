/**
 * The price-selection rules of `/api/crypto/:symbol` and `/api/metals/:metal`.
 * The network calls are not modelled: each provider's reply is an input, already
 * reduced to the price it yields or to `None` (network error, non-OK status,
 * malformed payload or missing field).
 */
module Pricing {
  import opened Wrappers

  /** `toUpperCase` on ASCII letters. */
  function UpperAscii(s: string): (r: string)
    ensures |r| == |s|
  {
    seq(|s|, i requires 0 <= i < |s| => if 'a' <= s[i] <= 'z' then (s[i] as int - 32) as char else s[i])
  }

  lemma UpperAsciiIdempotent(s: string)
    ensures UpperAscii(UpperAscii(s)) == UpperAscii(s)
  {
  }

  // ------------------------------------------------------------------ crypto

  /** `coinMap`: ticker symbol to CoinGecko coin id. */
  const CoinMap: map<string, string> :=
    map["BTC" := "bitcoin", "ETH" := "ethereum", "LTC" := "litecoin", "SOL" := "solana", "XRP" := "ripple"]

  const SupportedCoins: set<string> := {"BTC", "ETH", "LTC", "SOL", "XRP"}

  /** `coinMap[symbol]`: defined exactly for the five supported tickers. */
  function CoinId(symbol: string): (r: Option<string>)
    ensures r.Some? <==> symbol in SupportedCoins
    ensures symbol == "BTC" ==> r == Some("bitcoin")
    ensures symbol == "ETH" ==> r == Some("ethereum")
    ensures symbol == "LTC" ==> r == Some("litecoin")
    ensures symbol == "SOL" ==> r == Some("solana")
    ensures symbol == "XRP" ==> r == Some("ripple")
  {
    if symbol in CoinMap then Some(CoinMap[symbol]) else None
  }

  /** What CoinGecko's reply yields: `data[coinId].usd`, nothing, or a thrown error. */
  datatype CoinReply = Usd(usd: real) | NoUsd | Threw(message: string)

  /** An HTTP reply: `{ price }` or a status with `{ error }`. */
  datatype Response = Price(price: real) | Failure(status: nat, error: string)

  /** The reply of `/api/crypto/:symbol` and the coin id it asked CoinGecko for, if any. */
  datatype CryptoOutcome = CryptoOutcome(response: Response, requested: Option<string>)

  /** `/api/crypto/:symbol`: an unsupported symbol is refused with 400 before any
      request; otherwise the price is `data[coinId].usd` when that is truthy, and a
      500 follows when it is missing, zero, or the request threw. */
  function CryptoPrice(symbolParam: string, reply: CoinReply): (o: CryptoOutcome)
    ensures o.requested == CoinId(UpperAscii(symbolParam))
    ensures o.requested.None? ==> o.response == Failure(400, "Unsupported cryptocurrency")
    ensures o.response.Price? <==> o.requested.Some? && reply.Usd? && reply.usd != 0.0
    ensures o.response.Price? ==> o.response.price == reply.usd
    ensures o.requested.Some? && !o.response.Price? ==> o.response.status == 500
  {
    var symbol := UpperAscii(symbolParam);
    match CoinId(symbol)
    case None => CryptoOutcome(Failure(400, "Unsupported cryptocurrency"), None)
    case Some(id) =>
      var response :=
        match reply
        case Usd(p) => if p != 0.0 then Price(p) else Failure(500, "Failed to fetch price")
        case NoUsd => Failure(500, "Failed to fetch price")
        case Threw(m) => Failure(500, m);
      CryptoOutcome(response, Some(id))
  }

  /** The symbol is case-insensitive: the route upper-cases it first. */
  lemma CryptoPriceIgnoresCase(symbolParam: string, reply: CoinReply)
    ensures CryptoPrice(UpperAscii(symbolParam), reply) == CryptoPrice(symbolParam, reply)
  {
    UpperAsciiIdempotent(symbolParam);
  }

  /** No reply at all can make an unsupported symbol reach CoinGecko. */
  lemma UnsupportedSymbolNotFetched(symbolParam: string, reply: CoinReply)
    requires UpperAscii(symbolParam) !in SupportedCoins
    ensures CryptoPrice(symbolParam, reply) == CryptoOutcome(Failure(400, "Unsupported cryptocurrency"), None)
  {
  }

  // ------------------------------------------------------------------ metals

  datatype Provider = YahooFinance | AlphaVantage | CommoditiesApi

  /** One provider request: the provider and the symbol it was asked for. */
  datatype Request = Request(provider: Provider, symbol: string)

  /** The price `/api/metals/:metal` answers with, the provider that supplied it
      (`None` for the built-in constant) and the requests made, in order. */
  datatype MetalQuote = MetalQuote(price: real, source: Option<Provider>, tried: seq<Request>)

  /** `fallbackPrices[metal] || 0`. */
  function FallbackPrice(metal: string): (price: real)
    ensures price >= 0.0
    ensures price > 0.0 <==> metal == "GOLD" || metal == "SILVER"
  {
    if metal == "GOLD" then 2650.0 else if metal == "SILVER" then 30.5 else 0.0
  }

  /** Every metal other than GOLD is asked for under the silver symbols. */
  function SymbolFor(p: Provider, metal: string): string {
    match p
    case YahooFinance => if metal == "GOLD" then "GC=F" else "SI=F"
    case AlphaVantage => if metal == "GOLD" then "XAU" else "XAG"
    case CommoditiesApi => if metal == "GOLD" then "GOLD" else "SILVER"
  }

  /** Each provider has distinct gold and silver symbols, and every metal other
      than GOLD gets the silver one. */
  lemma SilverSymbolForOtherMetals(p: Provider, metal: string)
    ensures SymbolFor(p, "GOLD") != SymbolFor(p, "SILVER")
    ensures SymbolFor(p, metal) == if metal == "GOLD" then SymbolFor(p, "GOLD") else SymbolFor(p, "SILVER")
  {
  }

  /** An environment variable is truthy when it is set and non-empty. */
  predicate KeySet(key: Option<string>) {
    key.Some? && key.value != ""
  }

  function Rank(p: Provider): nat {
    match p
    case YahooFinance => 0
    case AlphaVantage => 1
    case CommoditiesApi => 2
  }

  /** The provider requests `/api/metals/:metal` makes for `metal`, in order: Yahoo
      Finance always; Alpha Vantage when Yahoo gave nothing and its key is set;
      Commodities-API when neither gave a price and its key is set. */
  function MetalRequests(metal: string, yahoo: Option<real>,
                         alphaKey: Option<string>, alpha: Option<real>,
                         commoditiesKey: Option<string>): (t: seq<Request>)
    ensures |t| >= 1 && t[0] == Request(YahooFinance, SymbolFor(YahooFinance, metal))
    ensures forall i :: 0 <= i < |t| ==> t[i].symbol == SymbolFor(t[i].provider, metal)
    ensures forall i, j :: 0 <= i < j < |t| ==> Rank(t[i].provider) < Rank(t[j].provider)
    ensures Request(AlphaVantage, SymbolFor(AlphaVantage, metal)) in t <==> yahoo.None? && KeySet(alphaKey)
    ensures Request(CommoditiesApi, SymbolFor(CommoditiesApi, metal)) in t <==>
              yahoo.None? && (!KeySet(alphaKey) || alpha.None?) && KeySet(commoditiesKey)
  {
    var y := [Request(YahooFinance, SymbolFor(YahooFinance, metal))];
    var a := if KeySet(alphaKey) then [Request(AlphaVantage, SymbolFor(AlphaVantage, metal))] else [];
    var c := if KeySet(commoditiesKey) then [Request(CommoditiesApi, SymbolFor(CommoditiesApi, metal))] else [];
    if yahoo.Some? then y
    else if KeySet(alphaKey) && alpha.Some? then y + a
    else y + a + c
  }

  /** `/api/metals/:metal`: the metal is upper-cased, the providers are asked as
      `MetalRequests` says, the first price wins, and when none comes the per-metal
      constant is used. */
  function MetalPrice(metalParam: string, yahoo: Option<real>,
                      alphaKey: Option<string>, alpha: Option<real>,
                      commoditiesKey: Option<string>, commodities: Option<real>): (q: MetalQuote)
    ensures var metal := UpperAscii(metalParam);
      && q.tried == MetalRequests(metal, yahoo, alphaKey, alpha, commoditiesKey)
      && (q.source.Some? ==> q.source.value == q.tried[|q.tried| - 1].provider)
      && (q.source == Some(YahooFinance) <==> yahoo.Some?)
      && (q.source == Some(YahooFinance) ==> yahoo == Some(q.price))
      && (q.source == Some(AlphaVantage) ==> alpha == Some(q.price))
      && (q.source == Some(CommoditiesApi) ==> commodities == Some(q.price))
      && (q.source.None? <==>
            yahoo.None? && (!KeySet(alphaKey) || alpha.None?) && (!KeySet(commoditiesKey) || commodities.None?))
      && (q.source.None? ==> q.price == FallbackPrice(metal))
  {
    var metal := UpperAscii(metalParam);
    var tried := MetalRequests(metal, yahoo, alphaKey, alpha, commoditiesKey);
    if yahoo.Some? then MetalQuote(yahoo.value, Some(YahooFinance), tried)
    else if KeySet(alphaKey) && alpha.Some? then MetalQuote(alpha.value, Some(AlphaVantage), tried)
    else if KeySet(commoditiesKey) && commodities.Some? then MetalQuote(commodities.value, Some(CommoditiesApi), tried)
    else MetalQuote(FallbackPrice(metal), None, tried)
  }

  /** When every provider fails, gold is 2650, silver 30.5 and anything else 0; so a
      gold or silver request always gets a positive price unless a provider itself
      supplies one that is not. */
  lemma MetalFallback(metalParam: string, alphaKey: Option<string>, commoditiesKey: Option<string>)
    ensures var q := MetalPrice(metalParam, None, alphaKey, None, commoditiesKey, None);
      && q.source.None?
      && q.price == (match UpperAscii(metalParam)
                     case "GOLD" => 2650.0
                     case "SILVER" => 30.5
                     case _ => 0.0)
  {
  }

  lemma MetalPricePositive(metalParam: string, yahoo: Option<real>,
                           alphaKey: Option<string>, alpha: Option<real>,
                           commoditiesKey: Option<string>, commodities: Option<real>)
    requires UpperAscii(metalParam) in {"GOLD", "SILVER"}
    requires yahoo.Some? ==> yahoo.value > 0.0
    requires alpha.Some? ==> alpha.value > 0.0
    requires commodities.Some? ==> commodities.value > 0.0
    ensures MetalPrice(metalParam, yahoo, alphaKey, alpha, commoditiesKey, commodities).price > 0.0
  {
  }
}
