/** `ScreenerUtils`: a registry of named screeners and dispatch to them.
    Network responses come from `Endpoints`, one function per request the two
    screeners send, keyed by the screener's configuration. */
module ScreenerUtils {
  import opened Values
  import Finology
  import Eodhd

  /** A constructed screener of one of the two implementations. */
  datatype Screener =
    | FinologyScreener(finology: Finology.Config)
    | EodhdScreener(eodhd: Eodhd.Config)

  /** The decoded responses of the requests the screeners send:
      - `finologySearch(config, params)`: the stock-search endpoint;
      - `finologyStock(config, ticker)`: the stock-detail endpoint;
      - `eodhdSymbols(config, exchange)`: the exchange symbol list;
      - `eodhdFundamentals(config, code)`: the fundamentals document;
      - `parse`: `float()` applied to a string. */
  datatype Endpoints = Endpoints(
    finologySearch: (Finology.Config, Record) -> Value,
    finologyStock: (Finology.Config, string) -> Value,
    eodhdSymbols: (Eodhd.Config, Value) -> seq<Record>,
    eodhdFundamentals: (Eodhd.Config, Value) -> Value,
    parse: string -> Option<real>)

  /** `screener.screen(criteria)` */
  function Screen(s: Screener, criteria: Record, io: Endpoints): seq<Record> {
    match s
    case FinologyScreener(cfg) =>
      Finology.Screen(criteria, params => io.finologySearch(cfg, params))
    case EodhdScreener(cfg) =>
      Eodhd.ScreenSpec(criteria, exch => io.eodhdSymbols(cfg, exch), code => io.eodhdFundamentals(cfg, code), io.parse)
  }

  /** `screener.get_stock_details(ticker)`: both implementations catch every
      exception themselves, so this never raises. */
  function StockDetails(s: Screener, ticker: string, io: Endpoints): (r: Record)
    ensures NoneFree(r)
  {
    match s
    case FinologyScreener(cfg) => Finology.Details(io.finologyStock(cfg, ticker))
    case EodhdScreener(cfg) => Eodhd.Details(io.eodhdFundamentals(cfg, VStr(ticker)))
  }

  /** The registry: the screeners by name, and the names in the order Python's
      dict iterates them (insertion order). */
  datatype Utils = Utils(names: seq<string>, screeners: map<string, Screener>)

  /** The names list is the dict's key order: no repeats, exactly the keys. */
  predicate Valid(u: Utils) {
    && (forall i, j :: 0 <= i < j < |u.names| ==> u.names[i] != u.names[j])
    && u.screeners.Keys == set n | n in u.names
  }

  /** `ScreenerUtils()`: no screeners. */
  const Empty: Utils := Utils([], map[])

  /** `add_screener(name, screener)`: a new name goes last; a known name keeps
      its place and has its screener replaced. */
  function AddScreener(u: Utils, name: string, s: Screener): (r: Utils)
    requires Valid(u)
    ensures Valid(r)
    ensures r.screeners == u.screeners[name := s]
    ensures name in u.screeners ==> r.names == u.names
    ensures name !in u.screeners ==> r.names == u.names + [name]
  {
    if name in u.screeners then Utils(u.names, u.screeners[name := s])
    else Utils(u.names + [name], u.screeners[name := s])
  }

  /** `screen_with_provider(provider, criteria)`: `[]` for an unregistered
      name, otherwise exactly what the named screener's `screen` returns. */
  function ScreenWithProvider(u: Utils, provider: string, criteria: Record, io: Endpoints): (r: seq<Record>)
    ensures provider !in u.screeners ==> r == []
    ensures provider in u.screeners ==> r == Screen(u.screeners[provider], criteria, io)
  {
    if provider !in u.screeners then [] else Screen(u.screeners[provider], criteria, io)
  }

  /** Screening through a registered EODHD screener yields only records inside
      the criteria's ranges, with truthy tickers and the criteria's exchange,
      and at most 100 of them when no limit is given. */
  lemma EodhdProviderResults(u: Utils, provider: string, criteria: Record, io: Endpoints)
    requires provider in u.screeners && u.screeners[provider].EodhdScreener?
    ensures forall x :: x in ScreenWithProvider(u, provider, criteria, io) ==> Eodhd.Qualified(Eodhd.CriteriaOf(criteria), x)
    ensures "limit" !in criteria ==> |ScreenWithProvider(u, provider, criteria, io)| <= 100
  {
    var cfg := u.screeners[provider].eodhd;
    var symbols := exch => io.eodhdSymbols(cfg, exch);
    var fundamentals := code => io.eodhdFundamentals(cfg, code);
    Eodhd.ScreenResultsQualify(criteria, symbols, fundamentals, io.parse);
    if "limit" !in criteria {
      Eodhd.DefaultLimit(criteria, symbols, fundamentals, io.parse);
    }
  }
}
