/** `EODHDScreener`: construction, the screening rule of `screen` and the
    detail record of `get_stock_details`. The two endpoints are inputs:
    `symbolsFor(exchange)` is the decoded symbol list (empty when the fetch
    failed) and `fundamentals(code)` the decoded fundamentals document (`{}`
    when it failed). `parse` is Python's `float()` on a string, which is not
    part of this model. */
module Eodhd {
  import opened Values

  /** The state a constructed screener keeps. */
  datatype Config = Config(apiToken: Value)

  /** `EODHDScreener(**kwargs)`, with `envToken` the value of the
      EODHD_API_TOKEN environment variable: the token is `api_token or env`,
      and a falsy token raises `ValueError` (as does an unexpected keyword,
      `TypeError`). A raised exception is `None`. */
  function New(kwargs: Record, envToken: Option<string>): (r: Option<Config>)
    ensures r.Some? <==>
              && kwargs.Keys <= {"api_token"}
              && (Truthy(Get(kwargs, "api_token")) || (envToken.Some? && envToken.value != ""))
    ensures r.Some? ==> Truthy(r.value.apiToken)
    ensures r.Some? && Truthy(Get(kwargs, "api_token")) ==> r.value.apiToken == kwargs["api_token"]
    ensures r.Some? && !Truthy(Get(kwargs, "api_token")) ==> r.value.apiToken == VStr(envToken.value)
  {
    if !(kwargs.Keys <= {"api_token"}) then None
    else
      var given := Get(kwargs, "api_token");
      var token := if Truthy(given) then given else if envToken.Some? then VStr(envToken.value) else VNone;
      if Truthy(token) then Some(Config(token)) else None
  }

  // ---------------------------------------------------------------------------
  // Criteria

  const Defaults: Record := map[
    "exchange" := VStr("NSE"),
    "market_cap_min" := VNum(100_000_000.0),
    "market_cap_max" := VNum(1_000_000_000_000.0),
    "pe_ratio_min" := VNum(0.0),
    "pe_ratio_max" := VNum(100.0),
    "div_yield_min" := VNum(0.0),
    "div_yield_max" := VNum(0.1),
    "price_min" := VNum(1.0),
    "price_max" := VNum(10_000.0),
    "limit" := VNum(100.0)
  ]

  /** The criteria after defaulting: every key the caller gave keeps its value,
      every other default key gets its default, and nothing else is added. */
  function FillDefaults(criteria: Record): (c: Record)
    ensures c.Keys == criteria.Keys + Defaults.Keys
    ensures forall k :: k in criteria ==> c[k] == criteria[k]
    ensures forall k :: k in Defaults && k !in criteria ==> c[k] == Defaults[k]
  {
    Defaults + criteria
  }

  // ---------------------------------------------------------------------------
  // Reading a fundamentals document

  /** `float(v or 0)`: a falsy value reads as 0; `None` when `float` raises. */
  function ToFloat(v: Value, parse: string -> Option<real>): (r: Option<real>)
    ensures !Truthy(v) ==> r == Some(0.0)
    ensures v.VNum? ==> r == Some(v.n)
    ensures v.VList? || v.VMap? || v == VNone ==> (r.Some? <==> !Truthy(v))
  {
    if !Truthy(v) then Some(0.0)
    else
      match v
      case VNum(n) => Some(n)
      case VBool(_) => Some(1.0)
      case VStr(s) => parse(s)
      case _ => None
  }

  /** The last bar of the price history, `{}` when the history is empty or
      missing; `None` when a non-empty history is not a list or its last bar is
      not an object (reading it raises). */
  function LatestBar(hist: Value): (r: Option<Record>)
    ensures !Truthy(hist) ==> r == Some(map[])
    ensures Truthy(hist) && !hist.VList? ==> r.None?
    ensures hist.VList? && hist.items != [] ==>
              (r.Some? <==> hist.items[|hist.items| - 1].VMap?) &&
              (r.Some? ==> r.value == hist.items[|hist.items| - 1].fields)
  {
    if !Truthy(hist) then Some(map[])
    else if hist.VList? && hist.items[|hist.items| - 1].VMap? then Some(hist.items[|hist.items| - 1].fields)
    else None
  }

  /** The numbers `screen` filters on, and the `General` block. */
  datatype Figures = Figures(general: Record, marketCap: real, peRatio: real, dividendYield: real, price: real)

  /** The `General` block, `{}` when absent; `None` when it is not an object. */
  function General(doc: Record): Option<Record> {
    var gen := GetOr(doc, "General", VMap(map[]));
    if gen.VMap? then Some(gen.fields) else None
  }

  /** Steps 2-3 of the loop body; `None` when any of them raises. */
  function ReadFigures(data: Value, parse: string -> Option<real>): Option<Figures> {
    if !data.VMap? then None
    else
      match General(data.fields)
      case None => None
      case Some(gen) =>
        match LatestBar(GetOr(data.fields, "EOD", VList([])))
        case None => None
        case Some(latest) =>
          var mc := ToFloat(Get(gen, "MarketCapitalization"), parse);
          var pe := ToFloat(Get(gen, "PERatio"), parse);
          var dy := ToFloat(Get(gen, "DividendYield"), parse);
          var price := ToFloat(Get(latest, "close"), parse);
          if mc.Some? && pe.Some? && dy.Some? && price.Some? then
            Some(Figures(gen, mc.value, pe.value, dy.value, price.value))
          else None
  }

  /** A field read from a document: its number when truthy, 0 when missing or falsy. */
  function NumberOrZero(r: Record, k: string): real
    requires Get(r, k).VNum? || !Truthy(Get(r, k))
  {
    if Get(r, k).VNum? then Get(r, k).n else 0.0
  }

  /** Missing or falsy figures read as 0, and the price is the `close` of the
      last EOD bar, or 0 when there is no history. */
  lemma {:induction false} MissingFiguresReadZero(data: Value, parse: string -> Option<real>)
    requires data.VMap?
    requires General(data.fields).Some?
    requires var gen := General(data.fields).value;
             forall k :: k in {"MarketCapitalization", "PERatio", "DividendYield"} ==>
               Get(gen, k).VNum? || !Truthy(Get(gen, k))
    requires var hist := GetOr(data.fields, "EOD", VList([]));
             !Truthy(hist) ||
             (hist.VList? && hist.items[|hist.items| - 1].VMap? &&
              var close := Get(hist.items[|hist.items| - 1].fields, "close");
              close.VNum? || !Truthy(close))
    ensures var f := ReadFigures(data, parse);
            var gen := General(data.fields).value;
            var hist := GetOr(data.fields, "EOD", VList([]));
            && f.Some?
            && f.value.marketCap == NumberOrZero(gen, "MarketCapitalization")
            && f.value.peRatio == NumberOrZero(gen, "PERatio")
            && f.value.dividendYield == NumberOrZero(gen, "DividendYield")
            && f.value.price == (if !Truthy(hist) then 0.0 else NumberOrZero(hist.items[|hist.items| - 1].fields, "close"))
  {
    var gen := General(data.fields).value;
    assert "MarketCapitalization" in {"MarketCapitalization", "PERatio", "DividendYield"};
    assert "PERatio" in {"MarketCapitalization", "PERatio", "DividendYield"};
    assert "DividendYield" in {"MarketCapitalization", "PERatio", "DividendYield"};
  }

  // ---------------------------------------------------------------------------
  // The filter

  /** `lo <= x <= hi` in Python: `lo <= x and x <= hi`, where comparing a
      non-number raises (`None`). */
  function InRange(lo: Value, x: real, hi: Value): (r: Option<bool>)
    ensures r == Some(true) <==>
              AsNumber(lo).Some? && AsNumber(hi).Some? && AsNumber(lo).value <= x <= AsNumber(hi).value
  {
    match AsNumber(lo)
    case None => None
    case Some(l) =>
      if !(l <= x) then Some(false)
      else match AsNumber(hi)
        case None => None
        case Some(h) => Some(x <= h)
  }

  /** One `*_min` / `*_max` pair of the criteria. */
  datatype Bounds = Bounds(lo: Value, hi: Value) {
    /** The range check passes (neither raises nor fails). */
    predicate Admits(x: real) {
      InRange(lo, x, hi) == Some(true)
    }
  }

  /** The defaulted criteria, as `screen` reads them. */
  datatype Criteria = Criteria(exchange: Value, marketCap: Bounds, peRatio: Bounds,
                               dividendYield: Bounds, price: Bounds, limit: Value)

  function CriteriaOf(criteria: Record): Criteria {
    var c := FillDefaults(criteria);
    Criteria(c["exchange"],
             Bounds(c["market_cap_min"], c["market_cap_max"]),
             Bounds(c["pe_ratio_min"], c["pe_ratio_max"]),
             Bounds(c["div_yield_min"], c["div_yield_max"]),
             Bounds(c["price_min"], c["price_max"]),
             c["limit"])
  }

  /** Each criterion the caller leaves out takes its default. */
  lemma CriteriaDefaults(criteria: Record)
    ensures var q := CriteriaOf(criteria);
            && q.exchange == GetOr(criteria, "exchange", VStr("NSE"))
            && q.marketCap == Bounds(GetOr(criteria, "market_cap_min", VNum(100_000_000.0)),
                                     GetOr(criteria, "market_cap_max", VNum(1_000_000_000_000.0)))
            && q.peRatio == Bounds(GetOr(criteria, "pe_ratio_min", VNum(0.0)), GetOr(criteria, "pe_ratio_max", VNum(100.0)))
            && q.dividendYield == Bounds(GetOr(criteria, "div_yield_min", VNum(0.0)), GetOr(criteria, "div_yield_max", VNum(0.1)))
            && q.price == Bounds(GetOr(criteria, "price_min", VNum(1.0)), GetOr(criteria, "price_max", VNum(10_000.0)))
            && q.limit == GetOr(criteria, "limit", VNum(100.0))
  {
    SizeDefaults(criteria);
    MarketCapDefaults(criteria);
    RatioDefaults(criteria);
  }

  lemma SizeDefaults(criteria: Record)
    ensures var q := CriteriaOf(criteria);
            && q.exchange == GetOr(criteria, "exchange", VStr("NSE"))
            && q.limit == GetOr(criteria, "limit", VNum(100.0))
  {
  }

  lemma MarketCapDefaults(criteria: Record)
    ensures CriteriaOf(criteria).marketCap ==
              Bounds(GetOr(criteria, "market_cap_min", VNum(100_000_000.0)),
                     GetOr(criteria, "market_cap_max", VNum(1_000_000_000_000.0)))
  {
  }

  lemma RatioDefaults(criteria: Record)
    ensures var q := CriteriaOf(criteria);
            && q.peRatio == Bounds(GetOr(criteria, "pe_ratio_min", VNum(0.0)), GetOr(criteria, "pe_ratio_max", VNum(100.0)))
            && q.dividendYield == Bounds(GetOr(criteria, "div_yield_min", VNum(0.0)), GetOr(criteria, "div_yield_max", VNum(0.1)))
            && q.price == Bounds(GetOr(criteria, "price_min", VNum(1.0)), GetOr(criteria, "price_max", VNum(10_000.0)))
  {
  }

  /** Step 4: the four inclusive range checks all pass (a check that raises or
      fails skips the symbol alike). */
  predicate Passes(q: Criteria, f: Figures) {
    && q.marketCap.Admits(f.marketCap)
    && q.peRatio.Admits(f.peRatio)
    && q.dividendYield.Admits(f.dividendYield)
    && q.price.Admits(f.price)
  }

  /** Step 5: the result record. */
  function Row(code: Value, f: Figures, exch: Value): Record {
    map[
      "ticker" := code,
      "name" := Get(f.general, "Name"),
      "sector" := Get(f.general, "Sector"),
      "industry" := Get(f.general, "Industry"),
      "marketCap" := VNum(f.marketCap),
      "peRatio" := VNum(f.peRatio),
      "dividendYield" := VNum(f.dividendYield),
      "price" := VNum(f.price),
      "exchange" := exch
    ]
  }

  /** One symbol: its result record, or `None` when it is skipped (no code, a
      raised exception, or a failed range check). */
  function MatchSymbol(sym: Record, q: Criteria, fundamentals: Value -> Value, parse: string -> Option<real>): Option<Record> {
    var code := Get(sym, "Code");
    if !Truthy(code) then None
    else
      match ReadFigures(fundamentals(code), parse)
      case None => None
      case Some(f) => if Passes(q, f) then Some(Row(code, f, q.exchange)) else None
  }

  /** The result record of one symbol, as a sequence of zero or one. */
  function MatchOne(sym: Record, q: Criteria, fundamentals: Value -> Value, parse: string -> Option<real>): seq<Record> {
    var m := MatchSymbol(sym, q, fundamentals, parse);
    if m.Some? then [m.value] else []
  }

  function MatchFn(q: Criteria, fundamentals: Value -> Value, parse: string -> Option<real>): Record -> seq<Record> {
    sym => MatchOne(sym, q, fundamentals, parse)
  }

  /** All result records of `syms`, in symbol order, ignoring the limit. */
  function Matches(syms: seq<Record>, q: Criteria, fundamentals: Value -> Value, parse: string -> Option<real>): seq<Record> {
    FlatMap(syms, MatchFn(q, fundamentals, parse))
  }

  /** The least count that stops the loop: the smallest natural number `n`
      with `n >= limit`. */
  function Cap(limit: real): (n: nat)
    ensures n as real >= limit
    ensures n == 0 || (n - 1) as real < limit
  {
    if limit <= 0.0 then 0
    else if limit.Floor as real == limit then limit.Floor
    else limit.Floor + 1
  }

  /** `screen(criteria)`: `[]` when the symbol list is empty or the limit is not
      a number (the first `len(results) >= limit` raises); otherwise the first
      matches, as many as the cap of the limit allows. */
  function ScreenSpec(criteria: Record, symbolsFor: Value -> seq<Record>,
                      fundamentals: Value -> Value, parse: string -> Option<real>): (r: seq<Record>)
    ensures symbolsFor(CriteriaOf(criteria).exchange) == [] ==> r == []
    ensures AsNumber(CriteriaOf(criteria).limit).None? ==> r == []
    ensures r <= Matches(symbolsFor(CriteriaOf(criteria).exchange), CriteriaOf(criteria), fundamentals, parse)
    ensures var q := CriteriaOf(criteria);
            var m := Matches(symbolsFor(q.exchange), q, fundamentals, parse);
            symbolsFor(q.exchange) != [] && AsNumber(q.limit).Some? ==>
              |r| == if |m| < Cap(AsNumber(q.limit).value) then |m| else Cap(AsNumber(q.limit).value)
  {
    var q := CriteriaOf(criteria);
    var syms := symbolsFor(q.exchange);
    if syms == [] then []
    else
      match AsNumber(q.limit)
      case None => []
      case Some(limit) =>
        var m := Matches(syms, q, fundamentals, parse);
        m[..if |m| < Cap(limit) then |m| else Cap(limit)]
  }

  lemma MatchesAppend(a: seq<Record>, b: seq<Record>, q: Criteria,
                      fundamentals: Value -> Value, parse: string -> Option<real>)
    ensures Matches(a + b, q, fundamentals, parse) == Matches(a, q, fundamentals, parse) + Matches(b, q, fundamentals, parse)
  {
    FlatMapAppend(a, b, MatchFn(q, fundamentals, parse));
  }

  /** The first symbol's record (if any) comes first. */
  lemma MatchesCons(syms: seq<Record>, q: Criteria, fundamentals: Value -> Value, parse: string -> Option<real>)
    requires syms != []
    ensures Matches(syms, q, fundamentals, parse) ==
            MatchOne(syms[0], q, fundamentals, parse) + Matches(syms[1..], q, fundamentals, parse)
  {
  }

  lemma MatchesSnoc(syms: seq<Record>, i: nat, q: Criteria, fundamentals: Value -> Value, parse: string -> Option<real>)
    requires i < |syms|
    ensures Matches(syms[..i + 1], q, fundamentals, parse) ==
            Matches(syms[..i], q, fundamentals, parse) + MatchOne(syms[i], q, fundamentals, parse)
  {
    assert syms[..i + 1] == syms[..i] + [syms[i]];
    MatchesAppend(syms[..i], [syms[i]], q, fundamentals, parse);
    MatchesCons([syms[i]], q, fundamentals, parse);
    assert [syms[i]][1..] == [];
  }

  lemma MatchesPrefix(syms: seq<Record>, i: nat, q: Criteria, fundamentals: Value -> Value, parse: string -> Option<real>)
    requires i <= |syms|
    ensures Matches(syms[..i], q, fundamentals, parse) <= Matches(syms, q, fundamentals, parse)
  {
    assert syms == syms[..i] + syms[i..];
    MatchesAppend(syms[..i], syms[i..], q, fundamentals, parse);
  }

  /** `screen` as the source writes it: walk the symbols in order, checking the
      limit before each one. */
  method Screen(criteria: Record, symbolsFor: Value -> seq<Record>,
                fundamentals: Value -> Value, parse: string -> Option<real>) returns (results: seq<Record>)
    ensures results == ScreenSpec(criteria, symbolsFor, fundamentals, parse)
  {
    var q := CriteriaOf(criteria);
    var symbols := symbolsFor(q.exchange);
    if symbols == [] {
      return [];
    }
    var limitValue := AsNumber(q.limit);
    if limitValue.None? {
      // `len(results) >= limit` raises on the first symbol
      return [];
    }
    var limit := limitValue.value;
    results := [];
    var i := 0;
    while i < |symbols|
      invariant 0 <= i <= |symbols|
      invariant results == Matches(symbols[..i], q, fundamentals, parse)
      invariant |results| <= Cap(limit)
    {
      if |results| as real >= limit {
        break;
      }
      var m := MatchSymbol(symbols[i], q, fundamentals, parse);
      MatchesSnoc(symbols, i, q, fundamentals, parse);
      if m.Some? {
        results := results + [m.value];
      }
      i := i + 1;
    }
    MatchesPrefix(symbols, i, q, fundamentals, parse);
    if i == |symbols| {
      assert symbols[..i] == symbols;
    }
    ScreenSpecTakes(criteria, symbolsFor, fundamentals, parse, limit, results);
  }

  /** The reference result is the prefix of all matches whose length is the
      cap, or all of them when there are fewer. */
  lemma ScreenSpecTakes(criteria: Record, symbolsFor: Value -> seq<Record>,
                        fundamentals: Value -> Value, parse: string -> Option<real>, limit: real, w: seq<Record>)
    requires symbolsFor(CriteriaOf(criteria).exchange) != []
    requires AsNumber(CriteriaOf(criteria).limit) == Some(limit)
    requires var m := Matches(symbolsFor(CriteriaOf(criteria).exchange), CriteriaOf(criteria), fundamentals, parse);
             w <= m && |w| <= Cap(limit) && (|w| == |m| || |w| as real >= limit)
    ensures w == ScreenSpec(criteria, symbolsFor, fundamentals, parse)
  {
  }

  // ---------------------------------------------------------------------------
  // What screen promises

  /** What every screen result is: its four figures are numbers inside the
      criteria's ranges, its ticker is truthy and its exchange is the
      criteria's exchange. */
  predicate Qualified(q: Criteria, x: Record) {
    && Get(x, "marketCap").VNum? && q.marketCap.Admits(Get(x, "marketCap").n)
    && Get(x, "peRatio").VNum? && q.peRatio.Admits(Get(x, "peRatio").n)
    && Get(x, "dividendYield").VNum? && q.dividendYield.Admits(Get(x, "dividendYield").n)
    && Get(x, "price").VNum? && q.price.Admits(Get(x, "price").n)
    && Truthy(Get(x, "ticker"))
    && Get(x, "exchange") == q.exchange
  }

  lemma RowQualified(code: Value, f: Figures, q: Criteria)
    requires Truthy(code) && Passes(q, f)
    ensures Qualified(q, Row(code, f, q.exchange))
  {
    var x := Row(code, f, q.exchange);
    assert Get(x, "marketCap") == VNum(f.marketCap);
    assert Get(x, "peRatio") == VNum(f.peRatio);
    assert Get(x, "dividendYield") == VNum(f.dividendYield);
    assert Get(x, "price") == VNum(f.price);
    assert Get(x, "ticker") == code;
    assert Get(x, "exchange") == q.exchange;
  }

  lemma {:induction false} MatchesQualified(syms: seq<Record>, q: Criteria, fundamentals: Value -> Value, parse: string -> Option<real>)
    ensures forall x :: x in Matches(syms, q, fundamentals, parse) ==> Qualified(q, x)
  {
    if syms != [] {
      MatchesQualified(syms[1..], q, fundamentals, parse);
      MatchesCons(syms, q, fundamentals, parse);
      var code := Get(syms[0], "Code");
      var m := MatchSymbol(syms[0], q, fundamentals, parse);
      if m.Some? {
        var f := ReadFigures(fundamentals(code), parse).value;
        RowQualified(code, f, q);
      }
    }
  }

  function TickerOf(r: Record): Value {
    Get(r, "ticker")
  }

  function CodeOf(sym: Record): Value {
    Get(sym, "Code")
  }

  function Tickers(rs: seq<Record>): seq<Value> {
    MapSeq(rs, TickerOf)
  }

  function Codes(syms: seq<Record>): seq<Value> {
    MapSeq(syms, CodeOf)
  }

  /** A symbol yields at most one record, whose ticker is the symbol's code. */
  lemma MatchOneTicker(sym: Record, q: Criteria, fundamentals: Value -> Value, parse: string -> Option<real>)
    ensures var one := MatchFn(q, fundamentals, parse)(sym);
            |one| <= 1 && (one != [] ==> TickerOf(one[0]) == CodeOf(sym))
  {
    var m := MatchSymbol(sym, q, fundamentals, parse);
    if m.Some? {
      var code := Get(sym, "Code");
      var f := ReadFigures(fundamentals(code), parse).value;
      assert m.value == Row(code, f, q.exchange);
      assert Get(Row(code, f, q.exchange), "ticker") == code;
    }
  }

  lemma MatchesTickers(syms: seq<Record>, q: Criteria, fundamentals: Value -> Value, parse: string -> Option<real>)
    ensures IsSubsequence(Tickers(Matches(syms, q, fundamentals, parse)), Codes(syms))
  {
    var f := MatchFn(q, fundamentals, parse);
    forall x | x in syms ensures |f(x)| <= 1 && (f(x) != [] ==> TickerOf(f(x)[0]) == CodeOf(x)) {
      MatchOneTicker(x, q, fundamentals, parse);
    }
    FlatMapSubsequence(syms, f, TickerOf, CodeOf);
  }

  /** Each result passes all four inclusive range checks of the (defaulted)
      criteria, carries a truthy ticker and the criteria's exchange. */
  lemma {:induction false} ScreenResultsQualify(criteria: Record, symbolsFor: Value -> seq<Record>,
                                                fundamentals: Value -> Value, parse: string -> Option<real>)
    ensures forall x :: x in ScreenSpec(criteria, symbolsFor, fundamentals, parse) ==> Qualified(CriteriaOf(criteria), x)
  {
    var q := CriteriaOf(criteria);
    MatchesQualified(symbolsFor(q.exchange), q, fundamentals, parse);
  }

  /** The result tickers are symbol codes, in symbol-list order. */
  lemma ScreenFollowsSymbolOrder(criteria: Record, symbolsFor: Value -> seq<Record>,
                                 fundamentals: Value -> Value, parse: string -> Option<real>)
    ensures IsSubsequence(Tickers(ScreenSpec(criteria, symbolsFor, fundamentals, parse)),
                          Codes(symbolsFor(CriteriaOf(criteria).exchange)))
  {
    var q := CriteriaOf(criteria);
    var syms := symbolsFor(q.exchange);
    MatchesTickers(syms, q, fundamentals, parse);
    MapSeqPrefixSubsequence(ScreenSpec(criteria, symbolsFor, fundamentals, parse),
                            Matches(syms, q, fundamentals, parse), TickerOf, Codes(syms));
  }

  /** The result count never exceeds the least whole number at or above the
      limit, so never exceeds a non-negative integral limit, and a limit of 0
      or less gives `[]`. */
  lemma ScreenWithinLimit(criteria: Record, symbolsFor: Value -> seq<Record>,
                          fundamentals: Value -> Value, parse: string -> Option<real>)
    requires AsNumber(CriteriaOf(criteria).limit).Some?
    ensures var limit := AsNumber(CriteriaOf(criteria).limit).value;
            var r := ScreenSpec(criteria, symbolsFor, fundamentals, parse);
            && |r| <= Cap(limit)
            && (0.0 <= limit && limit.Floor as real == limit ==> |r| as real <= limit)
            && (limit <= 0.0 ==> r == [])
  {
  }

  /** Without a `limit`, at most 100 results are returned. */
  lemma DefaultLimit(criteria: Record, symbolsFor: Value -> seq<Record>,
                     fundamentals: Value -> Value, parse: string -> Option<real>)
    requires "limit" !in criteria
    ensures |ScreenSpec(criteria, symbolsFor, fundamentals, parse)| <= 100
  {
    assert CriteriaOf(criteria).limit == VNum(100.0);
  }

  // ---------------------------------------------------------------------------
  // get_stock_details

  /** The bar's adjusted close, falling back to its close and then to 0. */
  function AdjustedClose(latest: Record): Value {
    GetOr(latest, "adjusted_close", GetOr(latest, "close", VNum(0.0)))
  }

  /** The `change` and `changePercent` entries for the last bar: both None
      without a bar, the percentage None when the open is falsy; `None` when
      the arithmetic raises on a non-number. */
  function Change(latest: Record): (r: Option<(Value, Value)>)
    ensures latest == map[] ==> r == Some((VNone, VNone))
    ensures latest != map[] ==>
              (r.Some? <==> AsNumber(AdjustedClose(latest)).Some? && AsNumber(GetOr(latest, "open", VNum(0.0))).Some?)
    ensures r.Some? && latest != map[] ==>
              r.value.0 == VNum(AsNumber(AdjustedClose(latest)).value - AsNumber(GetOr(latest, "open", VNum(0.0))).value)
    ensures r.Some? && !Truthy(Get(latest, "open")) ==> r.value.1 == VNone
  {
    if latest == map[] then Some((VNone, VNone))
    else
      var adj := AsNumber(AdjustedClose(latest));
      var opn := AsNumber(GetOr(latest, "open", VNum(0.0)));
      if adj.None? || opn.None? then None
      else
        var change := VNum(adj.value - opn.value);
        if !Truthy(Get(latest, "open")) then Some((change, VNone))
        else
          assert opn.value != 0.0;
          Some((change, VNum((adj.value / opn.value - 1.0) * 100.0)))
  }

  /** The detail fields before None values are dropped. */
  function RawDetails(doc: Record, gen: Record, latest: Record, change: Value, changePercent: Value): Record {
    map[
      "ticker" := Get(gen, "Symbol"),
      "name" := Get(gen, "Name"),
      "description" := Get(gen, "Description"),
      "sector" := Get(gen, "Sector"),
      "industry" := Get(gen, "Industry"),
      "country" := Get(gen, "Country"),
      "exchange" := Get(gen, "Exchange"),
      "currency" := Get(gen, "Currency"),
      "marketCap" := Get(gen, "MarketCapitalization"),
      "peRatio" := Get(gen, "PERatio"),
      "pbRatio" := Get(gen, "PBRatio"),
      "dividendYield" := Get(gen, "DividendYield"),
      "dividendShare" := Get(gen, "DividendShare"),
      "eps" := Get(gen, "EPS"),
      "roe" := Get(gen, "ROE"),
      "roa" := Get(gen, "ROA"),
      "debtToEquity" := Get(gen, "DebtToEquity"),
      "currentRatio" := Get(gen, "CurrentRatio"),
      "beta" := Get(gen, "Beta"),
      "fiftyTwoWeekHigh" := Get(gen, "52WeekHigh"),
      "fiftyTwoWeekLow" := Get(gen, "52WeekLow"),
      "latestPrice" := Get(latest, "close"),
      "volume" := Get(latest, "volume"),
      "change" := change,
      "changePercent" := changePercent,
      "financials" := VMap(map[
        "IncomeStatement" := GetOr(doc, "Income_Statement", VMap(map[])),
        "BalanceSheet" := GetOr(doc, "Balance_Sheet", VMap(map[])),
        "CashFlow" := GetOr(doc, "Cash_Flow", VMap(map[]))
      ])
    ]
  }

  /** `get_stock_details(ticker)` given the decoded fundamentals `data`: `{}`
      for an empty (failed) fetch or a document the code cannot read; otherwise
      the detail fields with every None dropped. */
  function Details(data: Value): (r: Record)
    ensures !Truthy(data) ==> r == map[]
    ensures NoneFree(r)
  {
    if !Truthy(data) || !data.VMap? then map[]
    else
      match General(data.fields)
      case None => map[]
      case Some(gen) =>
        match LatestBar(GetOr(data.fields, "EOD", VList([])))
        case None => map[]
        case Some(latest) =>
          match Change(latest)
          case None => map[]
          case Some(ch) => StripNone(RawDetails(data.fields, gen, latest, ch.0, ch.1))
  }

  /** A last bar whose (adjusted) close or open is not a number makes the
      `change` arithmetic raise, and the whole result is `{}`: a None close
      price loses every other field too. */
  lemma NonNumericBarLosesDetails(data: Value)
    requires data.VMap? && Truthy(data)
    requires LatestBar(GetOr(data.fields, "EOD", VList([]))).Some?
    requires var latest := LatestBar(GetOr(data.fields, "EOD", VList([]))).value;
             latest != map[] &&
             (AsNumber(AdjustedClose(latest)).None? || AsNumber(GetOr(latest, "open", VNum(0.0))).None?)
    ensures Details(data) == map[]
  {
  }

  /** For a readable document the statements block is always present, and the
      renamed fields `Symbol`, `MarketCapitalization`, `52WeekHigh` and
      `52WeekLow` appear as `ticker`, `marketCap`, `fiftyTwoWeekHigh` and
      `fiftyTwoWeekLow` exactly when they are not None. */
  lemma DetailsFields(data: Value)
    requires data.VMap? && Truthy(data)
    requires General(data.fields).Some?
    requires LatestBar(GetOr(data.fields, "EOD", VList([]))).Some?
    requires Change(LatestBar(GetOr(data.fields, "EOD", VList([]))).value).Some?
    ensures var r := Details(data);
            var gen := General(data.fields).value;
            && "financials" in r
            && ("ticker" in r <==> Get(gen, "Symbol") != VNone)
            && ("ticker" in r ==> r["ticker"] == gen["Symbol"])
            && ("marketCap" in r <==> Get(gen, "MarketCapitalization") != VNone)
            && ("marketCap" in r ==> r["marketCap"] == gen["MarketCapitalization"])
            && ("fiftyTwoWeekHigh" in r <==> Get(gen, "52WeekHigh") != VNone)
            && ("fiftyTwoWeekHigh" in r ==> r["fiftyTwoWeekHigh"] == gen["52WeekHigh"])
            && ("fiftyTwoWeekLow" in r <==> Get(gen, "52WeekLow") != VNone)
            && ("fiftyTwoWeekLow" in r ==> r["fiftyTwoWeekLow"] == gen["52WeekLow"])
  {
    var gen := General(data.fields).value;
    var latest := LatestBar(GetOr(data.fields, "EOD", VList([]))).value;
    var ch := Change(latest).value;
    assert Details(data) == StripNone(RawDetails(data.fields, gen, latest, ch.0, ch.1));
    RawDetailsRenamed(data.fields, gen, latest, ch.0, ch.1);
  }

  /** Where the renamed fields come from; one lemma per field keeps each
      lookup in the large map display small. */
  lemma RawDetailsRenamed(doc: Record, gen: Record, latest: Record, change: Value, changePercent: Value)
    ensures var raw := RawDetails(doc, gen, latest, change, changePercent);
            && "financials" in raw && raw["financials"].VMap?
            && "ticker" in raw && raw["ticker"] == Get(gen, "Symbol")
            && "marketCap" in raw && raw["marketCap"] == Get(gen, "MarketCapitalization")
            && "fiftyTwoWeekHigh" in raw && raw["fiftyTwoWeekHigh"] == Get(gen, "52WeekHigh")
            && "fiftyTwoWeekLow" in raw && raw["fiftyTwoWeekLow"] == Get(gen, "52WeekLow")
  {
    RawTicker(doc, gen, latest, change, changePercent);
    RawMarketCap(doc, gen, latest, change, changePercent);
    RawHigh(doc, gen, latest, change, changePercent);
    RawLow(doc, gen, latest, change, changePercent);
  }

  lemma RawTicker(doc: Record, gen: Record, latest: Record, change: Value, changePercent: Value)
    ensures var raw := RawDetails(doc, gen, latest, change, changePercent);
            "ticker" in raw && raw["ticker"] == Get(gen, "Symbol")
  {
  }

  lemma RawMarketCap(doc: Record, gen: Record, latest: Record, change: Value, changePercent: Value)
    ensures var raw := RawDetails(doc, gen, latest, change, changePercent);
            "marketCap" in raw && raw["marketCap"] == Get(gen, "MarketCapitalization")
  {
  }

  lemma RawHigh(doc: Record, gen: Record, latest: Record, change: Value, changePercent: Value)
    ensures var raw := RawDetails(doc, gen, latest, change, changePercent);
            "fiftyTwoWeekHigh" in raw && raw["fiftyTwoWeekHigh"] == Get(gen, "52WeekHigh")
  {
  }

  lemma RawLow(doc: Record, gen: Record, latest: Record, change: Value, changePercent: Value)
    ensures var raw := RawDetails(doc, gen, latest, change, changePercent);
            "fiftyTwoWeekLow" in raw && raw["fiftyTwoWeekLow"] == Get(gen, "52WeekLow")
  {
  }

}
