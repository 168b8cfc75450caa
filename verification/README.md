# Stock-screener record processing, modelled in Dafny

This project models the record-processing core of the `investment_machine`
stock screeners:

- `ScreenerUtils`:
  - `combine_results` merges per-ticker results from several providers;
  - `filter_by_risk` is a three-level risk rule;
  - `get_top_k` is a stable sort with missing keys last;
  - `get_stock_details_from_multiple_sources` merges one ticker's details from several sources;
  - the name registry with `add_screener` and `screen_with_provider`.
- `EODHDScreener`:
  - `screen`: default criteria, the symbol walk, four inclusive range checks, and the `limit` stop;
  - `get_stock_details`.
- `FinologyScreener`:
  - the base-URL normalisation in the constructor;
  - the query parameters and result renaming of `screen`;
  - the detail mapping of `get_stock_details`.
- The factory's `get_screener` and `get_screener_utils`.

Records (`Dict[str, Any]`) are `map<string, Value>`. `Value` mirrors decoded
JSON and the Python scalars the code stores (`VNone`, `VBool`, `VNum(real)`,
`VStr`, `VList`, `VMap`). Python behaviour the code relies on is written out
in `Values`:
- truthiness (`Truthy`);
- `dict.get` with and without a default (`Get`, `GetOr`);
- comparisons that raise on non-numbers (`AsNumber`);
- `str.lower` (`Lower`);
- the "fill absent or None keys" merge rule shared by both multi-provider merges (`Fill`);
- dropping None entries (`StripNone`).

Each HTTP response is an input:
- EODHD: a function from exchange to symbol list and from code to fundamentals document;
- Finology: a function from query parameters to search response and from ticker to stock document.

`ScreenerUtils.Endpoints` bundles these, keyed by each screener's
configuration. `float()` on a string is the parameter `parse`. The
EODHD_API_TOKEN environment variable is the parameter `envToken`. An exception
that the source catches becomes the value its handler returns (`[]`, `{}` or
`None`). An exception that escapes makes the modelled result the `Option` case `None`: `combine_results` on an unhashable ticker, `filter_by_risk` on a compared field that is not a number, and `get_screener_utils` on a configuration with a `provider` entry.

Modules follow the source files:

| module | file |
|---|---|
| `Values` | shared value model and Python behaviour |
| `Combine`, `RiskFilter`, `TopK`, `ScreenerUtils`, `MultiSourceDetails` | `screener_utils.py` |
| `Eodhd` | `eodhd_screener.py` |
| `Finology` | `finology_screener.py` |
| `Factory` | `factory.py` |

Each operation is paired with an independent reference definition or an
invariant:
- `combine_results` is compared with `Combine.Expected`, which says, per ticker, which provider records contribute and which value wins.
- The EODHD loop (`Eodhd.Screen`, a method with loop invariants) is proved equal to the functional `Eodhd.ScreenSpec`. The range, order and limit facts are proved about that function.
- The multi-source merge is compared with `MultiSourceDetails.FirstSource` (who supplies the base record) and `MultiSourceDetails.FirstHaving` (whose value a key takes).
- Sorting is characterised by a permutation, sortedness, and stability per key.

The EODHD limit is checked as `len(results) >= limit` before each symbol.
The result is therefore the first `n` matches, where `n` is the least natural
number with `n >= limit`: at most `limit` for a non-negative whole `limit`,
and `[]` for any `limit <= 0`.

## Model

| member | source | states |
|---|---|---|
| Values.StripNone | src/tools/screeners/finology_screener.py:187-188 | the result keeps exactly the entries whose value is not None, with their values |
| Values.Fill | src/tools/screeners/screener_utils.py:112-116 | a key is set from the incoming record exactly when it is not the reserved key, the incoming value is not None, and the existing record lacks it or holds None; every existing key not so filled, the reserved key included, keeps its value |
| Combine.MergeAll | src/tools/screeners/screener_utils.py:95-116 | the ticker map built by the loop lists each ticker at most once and holds a record for exactly the tickers it lists |
| Combine.MergeAllInvariant | src/tools/screeners/screener_utils.py:95-116 | after any prefix of the visited records, the map holds exactly the truthy tickers seen so far, in first-seen order, each with the reference merge of its records |
| Combine.CombineResults | src/tools/screeners/screener_utils.py:95-118 | `combine_results` raises exactly when some provider's list holds a record whose ticker is a non-empty list or dict, which cannot be a dict key |
| Combine.StepPreserves | src/tools/screeners/screener_utils.py:99-116 | one pass of the loop body keeps the ticker map equal to the reference merge of the records seen so far |
| Combine.CombineTickers | src/tools/screeners/screener_utils.py:118 | when it does not raise, the output lists one record per map entry, and output record i carries the i-th ticker of the map's order |
| Combine.CombineMatchesReference | src/tools/screeners/screener_utils.py:95-118 | when it does not raise, every output record has a truthy ticker and equals the reference merge of all records carrying that ticker |
| Combine.CombineOnePerTicker | src/tools/screeners/screener_utils.py:103-106 | when it does not raise, no two output records share a ticker |
| Combine.CombineCoversTickers | src/tools/screeners/screener_utils.py:99-101 | when it does not raise, a ticker has an output record if and only if it is truthy and some input record carries it, so records with a missing or empty ticker are dropped |
| Combine.CombineFirstAppearanceOrder | src/tools/screeners/screener_utils.py:103-106 | when it does not raise, output order is the order in which tickers first appear in the provider-by-provider walk |
| Combine.ProvidersListed | src/tools/screeners/screener_utils.py:105-110 | a ticker's `providers` list holds the provider of each contributing record, in walk order, one entry per record |
| Combine.MergePrecedence | src/tools/screeners/screener_utils.py:112-116 | a field takes the value of the first contributing record that has it non-None; later records never overwrite it |
| Combine.NoneOnlyFromBase | src/tools/screeners/screener_utils.py:112-116 | a field that is None or absent in every contributing record appears (as None) only if the first record has it |
| RiskFilter.FilterByRisk | src/tools/screeners/screener_utils.py:131-157 | an unknown level (after lower-casing) returns the input unchanged without reading any field; for a known level it raises exactly when some stock's test raises, and otherwise returns an order-preserving subsequence holding every copy of each stock that passes the level's test and nothing else |
| RiskFilter.KeepRaises | src/tools/screeners/screener_utils.py:133-151 | the loop raises exactly when the test of one of the stocks raises (a compared field that is None, a string, a list or a dict) |
| RiskFilter.KeepSpec | src/tools/screeners/screener_utils.py:133-151 | a loop that finishes keeps the passing stocks in input order, as many copies of each as the input has |
| RiskFilter.CaseInsensitive | src/tools/screeners/screener_utils.py:134-147 | filtering by a level name gives the same result as filtering by its lower-case form |
| RiskFilter.LowAndMediumDisjoint | src/tools/screeners/screener_utils.py:136-145 | no stock passes both the low and the medium test (the market-cap bands do not overlap) |
| RiskFilter.MissingDebtExcluded | src/tools/screeners/screener_utils.py:137-144 | a stock without `debtToEquity` (read as infinity) is never kept at low or medium risk |
| RiskFilter.MissingCapIsHighRisk | src/tools/screeners/screener_utils.py:149-151 | a stock without `marketCap` (read as 0) passes the high test without reading `peRatio`, and is kept unless another stock raises |
| RiskFilter.LowRejectsSmallCapFirst | src/tools/screeners/screener_utils.py:137-139 | at low risk a stock whose market cap is not above 5e11 is rejected before its debt and dividend fields are read, whatever they hold |
| RiskFilter.NoneFieldRaises | src/tools/screeners/screener_utils.py:137-151 | a stock whose `marketCap` is present but None makes filtering at any known level raise |
| TopK.SortPermutes | src/tools/screeners/screener_utils.py:173-177 | the sort returns the same stocks, each as often, ordered by the key with None/missing keys last |
| TopK.SortStable | src/tools/screeners/screener_utils.py:173-177 | the stocks of any one key value come out in their input order |
| TopK.SortCorrect | src/tools/screeners/screener_utils.py:173-177 | the sort is a permutation, is ordered by the key (None/missing keys last in both directions), and keeps the stocks of each key value in input order |
| TopK.GetTopK | src/tools/screeners/screener_utils.py:173-178 | the result has min(k, n) stocks drawn from the input, is sorted by the key, and no stock left out should come before a chosen one, so the chosen are the top k |
| TopK.TopKOrdered | src/tools/screeners/screener_utils.py:173-178 | of two numeric-keyed results, the earlier has the larger key when `reverse` and the smaller otherwise |
| TopK.TopKMissingLast | src/tools/screeners/screener_utils.py:174-175 | once a result lacks the key, every later result lacks it too |
| TopK.TopKStable | src/tools/screeners/screener_utils.py:177-178 | the results of each key value are a prefix of the input's stocks of that key value, in input order |
| Finology.RStripSlash | src/tools/screeners/finology_screener.py:19 | the result does not end in `/`, is a prefix of the input, and the input continues only with `/` |
| Finology.New | src/tools/screeners/finology_screener.py:17-19 | construction succeeds exactly for keywords among `api_key`/`base_url` with `api_key` given; the key is kept and the URL (default `https://api.finology.in`) is right-stripped of `/` |
| Finology.BaseUrlNormalised | src/tools/screeners/finology_screener.py:19 | the stored base URL is the given one with all trailing `/` removed and no trailing `/` left |
| Finology.RStripSlashIdempotent | src/tools/screeners/finology_screener.py:19 | stripping a stripped URL changes nothing |
| Finology.Params | src/tools/screeners/finology_screener.py:105-120 | the query parameters hold no None value, use only the eleven API names, carry `limit` 100 and `page` 1 when the criteria lack them, and hold any other parameter only when its criterion was given, with that criterion's value |
| Finology.ParamsForwarded | src/tools/screeners/finology_screener.py:106-116 | each criterion the caller gives is sent under its API name exactly when it is not None, with its value |
| Finology.Normalize | src/tools/screeners/finology_screener.py:130-140 | a result record has exactly the nine canonical fields: `symbol`, `companyName`, `latestPrice` renamed to `ticker`, `name`, `price`, the rest copied |
| Finology.NormalizeResults | src/tools/screeners/finology_screener.py:125-145 | one normalised record per API result, in order; a response that is not an object, lacks `results`, or whose `results` is not a list of objects gives `[]` (the raise is caught) |
| Finology.Screen | src/tools/screeners/finology_screener.py:99-145 | `screen` answers one normalised record per result of the search response to the built parameters, in order, and `[]` when the response has no `results` or its `results` is not a list of objects |
| Finology.Details | src/tools/screeners/finology_screener.py:152-190 | an empty fetch gives `{}`; the details never hold None and hold no key outside the 26 detail fields |
| Finology.DetailsRenamed | src/tools/screeners/finology_screener.py:158-185 | `ttmEPS`, `week52High`, `week52Low`, `symbol`, `latestPrice`, `companyName` appear as `eps`, `fiftyTwoWeekHigh`, `fiftyTwoWeekLow`, `ticker`, `price`, `name` exactly when not None, with their values |
| Finology.DetailsCopied | src/tools/screeners/finology_screener.py:158-185 | the 17 fields copied under their own names, `sector` through `ytdChangePercent`, each appear exactly when the response holds a non-None value for it, with that value |
| Finology.DetailsStatementsDefault | src/tools/screeners/finology_screener.py:182-184 | `financials`, `balanceSheet` and `cashFlow` default to `{}` when absent, are dropped only when given as None, and otherwise carry the given value |
| Eodhd.New | src/tools/screeners/eodhd_screener.py:20-29 | construction succeeds exactly when the token argument or, failing that, the environment token is non-empty; the stored token is the truthy one |
| Eodhd.FillDefaults | src/tools/screeners/eodhd_screener.py:140-156 | every criterion the caller gave keeps its value and every missing default key gets its default |
| Eodhd.CriteriaDefaults | src/tools/screeners/eodhd_screener.py:140-158 | the exchange, the four ranges and the limit `screen` uses are the caller's values, or NSE, 1e8..1e12, 0..100, 0..0.1, 1..1e4 and 100 |
| Eodhd.ToFloat | src/tools/screeners/eodhd_screener.py:194-197 | a falsy field reads as 0, a number as itself, and lists/objects raise |
| Eodhd.LatestBar | src/tools/screeners/eodhd_screener.py:190-191 | an empty or missing history gives `{}`; a non-empty history that is not a list, or whose last bar is not an object, raises; otherwise the last bar |
| Eodhd.MissingFiguresReadZero | src/tools/screeners/eodhd_screener.py:189-197 | missing or falsy MarketCapitalization, PERatio and DividendYield read as 0, and the price is the last bar's close, or 0 without history |
| Eodhd.InRange | src/tools/screeners/eodhd_screener.py:200-207 | a range check passes exactly when both bounds are numbers and `lo <= x <= hi` |
| Eodhd.ScreenSpec | src/tools/screeners/eodhd_screener.py:162-227 | an empty symbol list, or a limit that is not a number, gives `[]`; otherwise the result is the prefix of the stocks that pass the filters, in symbol order, whose length is the smaller of their count and the least whole number at or above the limit |
| Eodhd.ScreenSpecTakes | src/tools/screeners/eodhd_screener.py:169-176 | any prefix of the matches that is all of them, or has reached the limit without exceeding its cap, is the screen result |
| Eodhd.RowQualified | src/tools/screeners/eodhd_screener.py:200-220 | a record built from figures that pass the four range checks and a truthy code passes them too, with the code as ticker and the criteria's exchange |
| Eodhd.MatchOneTicker | src/tools/screeners/eodhd_screener.py:182-220 | one symbol yields at most one record, whose ticker is the symbol's code |
| Eodhd.MatchesQualified | src/tools/screeners/eodhd_screener.py:173-224 | every record the symbol walk collects, ignoring the limit, passes the four range checks |
| Eodhd.MatchesTickers | src/tools/screeners/eodhd_screener.py:173-224 | the collected records' tickers are the codes of a subsequence of the symbols, in symbol order |
| Eodhd.Screen | src/tools/screeners/eodhd_screener.py:169-227 | the symbol loop, checking the limit before each symbol, returns exactly the first matches up to the limit |
| Eodhd.ScreenResultsQualify | src/tools/screeners/eodhd_screener.py:182-219 | every result passes all four inclusive range checks of the defaulted criteria, has a truthy ticker and carries the criteria's exchange |
| Eodhd.ScreenFollowsSymbolOrder | src/tools/screeners/eodhd_screener.py:173-211 | the result tickers are the codes of a subsequence of the symbol list, in list order |
| Eodhd.ScreenWithinLimit | src/tools/screeners/eodhd_screener.py:170-176 | the count is at most the least whole number at or above the limit, so at most a non-negative whole limit, and a limit of 0 or less gives `[]` |
| Eodhd.DefaultLimit | src/tools/screeners/eodhd_screener.py:150 | without a `limit` at most 100 stocks are returned |
| Eodhd.Change | src/tools/screeners/eodhd_screener.py:287-288 | `change` is adjusted close minus open (None without a bar), `changePercent` is None for a falsy open, and non-numeric operands raise |
| Eodhd.Details | src/tools/screeners/eodhd_screener.py:247-293 | an empty fetch gives `{}`; the details never hold None |
| Eodhd.NonNumericBarLosesDetails | src/tools/screeners/eodhd_screener.py:287-299 | a last bar with a non-numeric close or open makes the whole result `{}` |
| Eodhd.DetailsFields | src/tools/screeners/eodhd_screener.py:256-289 | for a readable document `financials` is present, and `Symbol`, `MarketCapitalization`, `52WeekHigh`, `52WeekLow` appear as `ticker`, `marketCap`, `fiftyTwoWeekHigh`, `fiftyTwoWeekLow` exactly when not None, with their values |
| ScreenerUtils.AddScreener | src/tools/screeners/screener_utils.py:27-35 | registration keeps the registry consistent (distinct names, names = keys); a new name goes last, a known one is replaced in place |
| ScreenerUtils.ScreenWithProvider | src/tools/screeners/screener_utils.py:48-52 | an unregistered name gives `[]`; a registered one gives that screener's `screen` result |
| ScreenerUtils.StockDetails | src/tools/screeners/screener_utils.py:200 | a screener's details never hold None |
| ScreenerUtils.EodhdProviderResults | src/tools/screeners/screener_utils.py:52 | through a registered EODHD screener, every result is inside the criteria's ranges, and there are at most 100 without a `limit` |
| MultiSourceDetails.DataKeyNotProviderKey | src/tools/screeners/screener_utils.py:211-215 | no `<name>_data` key is the `provider` key |
| MultiSourceDetails.Tag | src/tools/screeners/screener_utils.py:203-204 | non-empty details gain `provider` = the provider name; empty details stay empty |
| MultiSourceDetails.Merge | src/tools/screeners/screener_utils.py:206-217 | the first non-empty details become the base; afterwards each provider's tagged record is stored whole under `<name>_data`, existing non-None keys keep their values, new keys come only from that provider, and `provider` never changes |
| MultiSourceDetails.GatherNoneFree | src/tools/screeners/screener_utils.py:195-217 | the merged details never hold None |
| MultiSourceDetails.BaseProviderIsFirstSource | src/tools/screeners/screener_utils.py:203-208 | the result is empty exactly when no listed provider returned details, and otherwise `provider` names the first that did |
| MultiSourceDetails.FirstProviderWins | src/tools/screeners/screener_utils.py:206-217 | every top-level key other than `provider` and the `_data` keys holds the value of the first listed provider whose record has it |
| MultiSourceDetails.LaterSourceStored | src/tools/screeners/screener_utils.py:209-211 | a provider merged into non-empty details has its whole tagged record under `<name>_data` |
| MultiSourceDetails.DetailsFromMultipleSources | src/tools/screeners/screener_utils.py:192-217 | the details consulted from the given providers, or all registered ones, hold no None, are empty exactly when no consulted provider returned details, otherwise name the first that did, and take every ordinary key from the first consulted provider that has it |
| MultiSourceDetails.UnregisteredSkipped | src/tools/screeners/screener_utils.py:196-197 | the result is the same as for the list with unregistered names removed |
| Factory.GetScreener | src/tools/screeners/factory.py:36-46 | a name outside the registry (after lower-casing) gives None; otherwise the named screener exactly when its constructor succeeds |
| Factory.GetScreenerIgnoresCase | src/tools/screeners/factory.py:36 | a provider name and its lower-case form give the same screener |
| Factory.FinologyNeedsApiKey | src/tools/screeners/factory.py:42-46 | without `api_key` no Finology screener is built |
| Factory.EodhdFromEnvironment | src/tools/screeners/eodhd_screener.py:27-29 | with no arguments an EODHD screener is built exactly when the environment token is non-empty |
| Factory.Build | src/tools/screeners/factory.py:65-69 | the loop raises exactly when a listed name's configuration holds a `provider` entry; otherwise the registry holds exactly the listed names, under the caller's spelling, whose screener can be built, each with that screener, and is consistent |
| Factory.GetScreenerUtils | src/tools/screeners/factory.py:62-69 | without configurations it never raises; registered names come from the provider list, or from the registry when the list is missing or empty; it raises exactly when a walked name's configuration holds a `provider` entry |
| Factory.BuildKeepsOrder | src/tools/screeners/factory.py:65-69 | when the loop does not raise, registered names keep the order of the provider list |
| Factory.DefaultUtils | src/tools/screeners/factory.py:62-69 | with no providers and no configurations nothing raises and the registry is `["eodhd"]` when the environment holds a token and empty otherwise |

## Left out

- HTTP requests (`_get`, `_make_request`), timeouts, environment reads and logging: responses, the environment token and `float()` on strings are inputs.
- `screen_parallel`: a thread-pool fan-out whose point is concurrency.
- `get_available_criteria` in both screeners: static description tables.
- `alpha_vantage.py`, `example.py`, `logging_config.py`, `base_screener.py` and the package `__init__.py` files are not part of this model.
- `ScreenerUtils(screeners)` with a non-empty initial dictionary: only the empty registry the factory creates is modelled.
- In-place mutation and aliasing: `screen` writes the defaults into the caller's criteria, `combine_results` adds `providers` to the caller's dicts, and the merged details alias the first provider's dict. Records here are values.
- TopK.GetTopK: requires the sort field to be a number, None or absent; the model covers numeric sort keys only. Python also sorts a field that holds a string in every record, or bools mixed with numbers, and raises on strings mixed with numbers or with a missing value. A negative `k`, which Python slices from the end, is excluded by `k: nat`.
- Values.Lower: lower-cases ASCII `A`-`Z` only. Python's `str.lower` covers all of Unicode.
- Combine.CombineResults: ticker values are compared as `Value`s. Python's dict treats `1`, `1.0` and `True` as the same key.
- Factory.Build: configurations are dictionaries. A configuration that is not a mapping, which `**` rejects with `TypeError`, is not modelled.
- Eodhd.Screen: the symbol list is a list of objects. A non-list response, or a non-object entry, makes the source's outer handler return `[]`; that is not modelled.
- Eodhd.Change: float arithmetic is exact real arithmetic, with no rounding, infinity or NaN.
- MultiSourceDetails.Gather: the `except` branch of the loop is absent because neither screener's `get_stock_details` raises. Both catch every exception themselves.
