/** `FinologyScreener`: construction, the request parameters of `screen`, the
    normalisation of its search results and of `get_stock_details`. The HTTP
    responses are inputs: `_get` returns the decoded JSON, or `{}` on failure. */
module Finology {
  import opened Values

  const DefaultBaseUrl: string := "https://api.finology.in"

  /** The state a constructed screener keeps. */
  datatype Config = Config(apiKey: Value, baseUrl: string)

  /** The URL with every trailing `/` removed. */
  function RStripSlash(s: string): (r: string)
    ensures r == [] || r[|r| - 1] != '/'
    ensures |r| <= |s| && s[..|r|] == r
    ensures forall i :: |r| <= i < |s| ==> s[i] == '/'
  {
    if s == [] || s[|s| - 1] != '/' then s else RStripSlash(s[..|s| - 1])
  }

  /** Stripping twice strips nothing more. */
  lemma RStripSlashIdempotent(s: string)
    ensures RStripSlash(RStripSlash(s)) == RStripSlash(s)
  {
  }

  /** `FinologyScreener(**kwargs)`: `api_key` is required, `base_url` optional,
      any other keyword raises `TypeError`, and a non-string `base_url` has no
      `rstrip`. A raised exception is `None`. */
  function New(kwargs: Record): (r: Option<Config>)
    ensures r.Some? <==>
              && kwargs.Keys <= {"api_key", "base_url"}
              && "api_key" in kwargs
              && ("base_url" in kwargs ==> kwargs["base_url"].VStr?)
    ensures r.Some? ==> r.value.apiKey == kwargs["api_key"]
    ensures r.Some? ==> r.value.baseUrl == RStripSlash(if "base_url" in kwargs then kwargs["base_url"].s else DefaultBaseUrl)
  {
    if !(kwargs.Keys <= {"api_key", "base_url"}) || "api_key" !in kwargs then None
    else
      var base := GetOr(kwargs, "base_url", VStr(DefaultBaseUrl));
      if !base.VStr? then None else Some(Config(kwargs["api_key"], RStripSlash(base.s)))
  }

  /** The stored base URL never ends in "/" and is the given one minus its
      trailing slashes. */
  lemma BaseUrlNormalised(kwargs: Record)
    requires New(kwargs).Some?
    ensures var u := New(kwargs).value.baseUrl;
            (u == [] || u[|u| - 1] != '/') &&
            var given := if "base_url" in kwargs then kwargs["base_url"].s else DefaultBaseUrl;
            given == u + given[|u|..] &&
            forall i :: |u| <= i < |given| ==> given[i] == '/'
  {
  }

  // ---------------------------------------------------------------------------
  // screen

  /** The parameter names `screen` can send. */
  const ParamNames: set<string> := {"sector", "market_cap_min", "market_cap_max", "exchange",
    "pe_ratio_min", "pe_ratio_max", "dividend_yield_min", "roe_min", "debt_to_equity_max", "limit", "page"}

  /** The criterion a parameter is read from (camel case for the ranges). */
  function CriterionOf(param: string): string {
    if param == "market_cap_min" then "marketCapMin"
    else if param == "market_cap_max" then "marketCapMax"
    else if param == "pe_ratio_min" then "peRatioMin"
    else if param == "pe_ratio_max" then "peRatioMax"
    else if param == "dividend_yield_min" then "dividendYieldMin"
    else if param == "roe_min" then "roeMin"
    else if param == "debt_to_equity_max" then "debtToEquityMax"
    else param
  }

  /** The query parameters of `screen`, before None values are dropped:
      `criteria.get(...)` for each, with `limit` 100 and `page` 1 as defaults. */
  function RawParams(criteria: Record): Record {
    map p | p in ParamNames ::
      if p == "limit" then GetOr(criteria, "limit", VNum(100.0))
      else if p == "page" then GetOr(criteria, "page", VNum(1.0))
      else Get(criteria, CriterionOf(p))
  }

  lemma RawParamsShape(criteria: Record)
    ensures RawParams(criteria).Keys == ParamNames
    ensures RawParams(criteria)["limit"] == GetOr(criteria, "limit", VNum(100.0))
    ensures RawParams(criteria)["page"] == GetOr(criteria, "page", VNum(1.0))
  {
  }

  /** The params sent by `screen`: only known parameter names, no None values,
      `limit` 100 / `page` 1 when the criteria lack them, and any other
      parameter only when its criterion was given, with its value. */
  function Params(criteria: Record): (p: Record)
    ensures NoneFree(p)
    ensures p.Keys <= ParamNames
    ensures "limit" !in criteria ==> "limit" in p && p["limit"] == VNum(100.0)
    ensures "page" !in criteria ==> "page" in p && p["page"] == VNum(1.0)
    ensures forall k :: k in p && k != "limit" && k != "page" ==>
              CriterionOf(k) in criteria && p[k] == criteria[CriterionOf(k)]
  {
    RawParamsShape(criteria);
    StripNone(RawParams(criteria))
  }

  /** Each criterion `screen` forwards, with the parameter name it is sent under. */
  const Forwarded: seq<(string, string)> := [("sector", "sector"), ("marketCapMin", "market_cap_min"),
    ("marketCapMax", "market_cap_max"), ("exchange", "exchange"), ("peRatioMin", "pe_ratio_min"),
    ("peRatioMax", "pe_ratio_max"), ("dividendYieldMin", "dividend_yield_min"), ("roeMin", "roe_min"),
    ("debtToEquityMax", "debt_to_equity_max"), ("limit", "limit"), ("page", "page")]

  /** A supplied criterion is forwarded under its parameter name exactly when it
      holds a non-None value (an explicit None `limit` or `page` is dropped, not
      defaulted). */
  lemma ParamsForwarded(criteria: Record, i: nat)
    requires i < |Forwarded|
    requires Forwarded[i].0 in criteria
    ensures var (src, dst) := Forwarded[i];
            (dst in Params(criteria) <==> criteria[src] != VNone) &&
            (dst in Params(criteria) ==> Params(criteria)[dst] == criteria[src])
  {
    var (src, dst) := Forwarded[i];
    var raw := RawParams(criteria);
    if i == 0 { assert raw[dst] == criteria[src]; }
    else if i == 1 { assert raw[dst] == criteria[src]; }
    else if i == 2 { assert raw[dst] == criteria[src]; }
    else if i == 3 { assert raw[dst] == criteria[src]; }
    else if i == 4 { assert raw[dst] == criteria[src]; }
    else if i == 5 { assert raw[dst] == criteria[src]; }
    else if i == 6 { assert raw[dst] == criteria[src]; }
    else if i == 7 { assert raw[dst] == criteria[src]; }
    else if i == 8 { assert raw[dst] == criteria[src]; }
    else if i == 9 { assert raw[dst] == criteria[src]; }
    else { assert raw[dst] == criteria[src]; }
  }

  /** The fields of a normalised search result. */
  const ResultFields: set<string> :=
    {"ticker", "name", "price", "marketCap", "sector", "peRatio", "dividendYield", "roe", "debtToEquity"}

  /** The search-result field a normalised field is read from. */
  function ResultSource(field: string): string {
    if field !in RenamedFields then field
    else if field == "ticker" then "symbol"
    else if field == "name" then "companyName"
    else if field == "price" then "latestPrice"
    else field
  }

  /** The record `screen` builds for one search result: the canonical fields,
      three of them renamed. */
  function Normalize(stock: Record): (r: Record)
    ensures r.Keys == ResultFields
    ensures r["ticker"] == Get(stock, "symbol")
    ensures r["name"] == Get(stock, "companyName")
    ensures r["price"] == Get(stock, "latestPrice")
    ensures forall k :: k in {"marketCap", "sector", "peRatio", "dividendYield", "roe", "debtToEquity"} ==> r[k] == Get(stock, k)
  {
    map f | f in ResultFields :: Get(stock, ResultSource(f))
  }

  predicate AllRecords(xs: seq<Value>) {
    forall i :: 0 <= i < |xs| ==> xs[i].VMap?
  }

  /** The search results of a decoded response: `data.get("results", [])`,
      iterated with `stock.get`; a response that is not an object, a `results`
      that is not a list, or a non-object result raises, and `screen` returns `[]`. */
  function NormalizeResults(data: Value): (r: seq<Record>)
    ensures data.VMap? && "results" in data.fields && data.fields["results"].VList?
              && AllRecords(data.fields["results"].items) ==>
              var xs := data.fields["results"].items;
              |r| == |xs| && forall i :: 0 <= i < |xs| ==> r[i] == Normalize(xs[i].fields)
    ensures data.VMap? && "results" !in data.fields ==> r == []
    ensures (data.VMap? && "results" in data.fields &&
             !(data.fields["results"].VList? && AllRecords(data.fields["results"].items))) ==> r == []
    ensures !data.VMap? ==> r == []
  {
    if !data.VMap? then []
    else
      var results := GetOr(data.fields, "results", VList([]));
      if results.VList? && AllRecords(results.items) then
        seq(|results.items|, i requires 0 <= i < |results.items| => Normalize(results.items[i].fields))
      else []
  }

  /** `screen(criteria)`, where `search` is the decoded answer of the search
      endpoint to the given params. */
  function Screen(criteria: Record, search: Record -> Value): (r: seq<Record>)
    ensures var d := search(Params(criteria));
            d.VMap? && "results" in d.fields && d.fields["results"].VList? && AllRecords(d.fields["results"].items) ==>
              var xs := d.fields["results"].items;
              |r| == |xs| && forall i :: 0 <= i < |xs| ==> r[i] == Normalize(xs[i].fields)
    ensures var d := search(Params(criteria));
            !d.VMap? || "results" !in d.fields ==> r == []
    ensures var d := search(Params(criteria));
            (d.VMap? && "results" in d.fields &&
             !(d.fields["results"].VList? && AllRecords(d.fields["results"].items))) ==> r == []
  {
    NormalizeResults(search(Params(criteria)))
  }

  // ---------------------------------------------------------------------------
  // get_stock_details

  /** The detail fields copied under their own names. */
  const SameNameFields: set<string> := {"sector", "industry", "change", "changePercent", "open", "high", "low",
    "volume", "marketCap", "peRatio", "dividendYield", "roe", "roa", "debtToEquity", "currentRatio", "beta",
    "ytdChangePercent"}

  /** The detail fields read from a field of another name (see `Renamed`). */
  const RenamedFields: set<string> := {"ticker", "name", "price", "eps", "fiftyTwoWeekHigh", "fiftyTwoWeekLow"}

  /** The statement blocks, which default to `{}` when the response lacks them. */
  const StatementFields: set<string> := {"financials", "balanceSheet", "cashFlow"}

  /** Every key the details can hold. */
  const DetailFields: set<string> := SameNameFields + RenamedFields + StatementFields

  /** The response field a detail field is read from. */
  function DetailSource(field: string): string {
    if field !in RenamedFields then field
    else if field == "ticker" then "symbol"
    else if field == "name" then "companyName"
    else if field == "price" then "latestPrice"
    else if field == "eps" then "ttmEPS"
    else if field == "fiftyTwoWeekHigh" then "week52High"
    else "week52Low"
  }

  /** The detail fields before None values are dropped. */
  function RawDetails(data: Record): Record {
    map f | f in DetailFields ::
      if f in StatementFields then GetOr(data, f, VMap(map[])) else Get(data, DetailSource(f))
  }

  /** `get_stock_details(ticker)` given the decoded stock response `data`:
      `{}` for an empty (failed) fetch or a response that is not an object;
      otherwise the renamed fields with every None dropped. */
  function Details(data: Value): (r: Record)
    ensures !Truthy(data) ==> r == map[]
    ensures NoneFree(r)
    ensures r.Keys <= DetailFields
  {
    if !Truthy(data) || !data.VMap? then map[] else StripNone(RawDetails(data.fields))
  }

  /** The detail fields whose name changes: source name, detail name. */
  const Renamed: seq<(string, string)> := [("ttmEPS", "eps"), ("week52High", "fiftyTwoWeekHigh"),
    ("week52Low", "fiftyTwoWeekLow"), ("symbol", "ticker"), ("latestPrice", "price"),
    ("companyName", "name")]

  /** `ttmEPS` becomes `eps`, `week52High`/`week52Low` become
      `fiftyTwoWeekHigh`/`fiftyTwoWeekLow`, `symbol` becomes `ticker`,
      `latestPrice` becomes `price` and `companyName` becomes `name`; each is
      present exactly when its source field holds a non-None value. */
  lemma DetailsRenamed(data: Value, i: nat)
    requires data.VMap? && Truthy(data)
    requires i < |Renamed|
    ensures var (src, dst) := Renamed[i];
            (dst in Details(data) <==> Get(data.fields, src) != VNone) &&
            (dst in Details(data) ==> Details(data)[dst] == data.fields[src])
  {
    var (src, dst) := Renamed[i];
    assert Details(data) == StripNone(RawDetails(data.fields));
    RawRenamed(data.fields, i);
  }

  /** Where the renamed fields come from. */
  lemma RawRenamed(doc: Record, i: nat)
    requires i < |Renamed|
    ensures var (src, dst) := Renamed[i];
            dst in RawDetails(doc) && RawDetails(doc)[dst] == Get(doc, src)
  {
    var (src, dst) := Renamed[i];
    assert dst in RenamedFields && dst !in StatementFields;
  }

  /** Seventeen fields keep their names: each is present exactly when the
      response holds a non-None value for it, and then carries that value. */
  lemma DetailsCopied(data: Value, k: string)
    requires data.VMap? && Truthy(data)
    requires k in SameNameFields
    ensures k in Details(data) <==> Get(data.fields, k) != VNone
    ensures k in Details(data) ==> Details(data)[k] == data.fields[k]
  {
    assert Details(data) == StripNone(RawDetails(data.fields));
    SameNameSource(k);
  }

  lemma SameNameSource(k: string)
    requires k in SameNameFields
    ensures k in DetailFields && k !in StatementFields && DetailSource(k) == k
  {
    assert k !in RenamedFields;
  }

  /** The three statement blocks default to `{}` when absent, are copied when
      given, and are dropped only when given as None. */
  lemma DetailsStatementsDefault(data: Value, k: string)
    requires data.VMap? && Truthy(data)
    requires k in StatementFields
    ensures k !in data.fields ==> k in Details(data) && Details(data)[k] == VMap(map[])
    ensures k in data.fields ==> (k in Details(data) <==> data.fields[k] != VNone)
    ensures k in data.fields && data.fields[k] != VNone ==> Details(data)[k] == data.fields[k]
  {
    assert Details(data) == StripNone(RawDetails(data.fields));
    assert k in DetailFields;
  }
}
