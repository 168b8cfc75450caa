/** `ScreenerUtils.filter_by_risk`: keep the stocks of one of three risk levels,
    judged by fixed market-cap, leverage, dividend and P/E thresholds.

    The thresholds are Python comparisons of a field with a number. A present
    field that is None, a string, a list or an object makes its comparison
    raise `TypeError`, which `filter_by_risk` does not catch; the tests are
    `and`/`or` chains, so a field is only compared when the earlier tests of
    its chain leave the outcome open. A test is therefore three-valued here:
    `Some(true)`, `Some(false)`, or `None` when it raises. */
module RiskFilter {
  import opened Values

  datatype RiskLevel = Low | Medium | High | Unknown

  /** The level named by `riskLevel`, compared after lower-casing. */
  function ParseLevel(riskLevel: string): RiskLevel {
    var l := Lower(riskLevel);
    if l == "low" then Low
    else if l == "medium" then Medium
    else if l == "high" then High
    else Unknown
  }

  const LargeCap: real := 500_000_000_000.0
  const MidCap: real := 50_000_000_000.0

  /** The number a field with default 0 is compared as; `None` when the
      comparison raises. */
  function FieldOrZero(stock: Record, key: string): Option<real> {
    AsNumber(GetOr(stock, key, VNum(0.0)))
  }

  /** The debt-to-equity test: a missing ratio counts as infinite, so it is
      below no bound; a present non-number raises. */
  function DebtBelow(stock: Record, bound: real): Option<bool> {
    if "debtToEquity" !in stock then Some(false)
    else match AsNumber(stock["debtToEquity"])
      case None => None
      case Some(d) => Some(d < bound)
  }

  /** Whether `stock` belongs to the known `level`, evaluating the tests left
      to right and stopping at the first that decides the outcome. */
  function Test(stock: Record, level: RiskLevel): Option<bool>
    requires level != Unknown
  {
    match FieldOrZero(stock, "marketCap")
    case None => None
    case Some(mc) =>
      if level == Low then
        if !(mc > LargeCap) then Some(false)
        else match DebtBelow(stock, 0.3)
          case None => None
          case Some(false) => Some(false)
          case Some(true) =>
            match FieldOrZero(stock, "dividendYield")
            case None => None
            case Some(dy) => Some(dy > 1.0)
      else if level == Medium then
        if !(MidCap < mc) || !(mc < LargeCap) then Some(false)
        else DebtBelow(stock, 1.0)
      else
        if mc < MidCap then Some(true)
        else match FieldOrZero(stock, "peRatio")
          case None => None
          case Some(pe) => Some(pe > 30.0)
  }

  /** `stock` passes the level's test without raising. */
  predicate Qualifies(stock: Record, level: RiskLevel)
    requires level != Unknown
  {
    Test(stock, level) == Some(true)
  }

  /** The test of `stock` raises. */
  predicate Raises(stock: Record, level: RiskLevel)
    requires level != Unknown
  {
    Test(stock, level).None?
  }

  /** The loop for a known level: the qualifying stocks in input order, or
      `None` once a test raises. */
  function Keep(stocks: seq<Record>, level: RiskLevel): Option<seq<Record>>
    requires level != Unknown
  {
    if stocks == [] then Some([])
    else match Test(stocks[0], level)
      case None => None
      case Some(q) =>
        match Keep(stocks[1..], level)
        case None => None
        case Some(rest) => Some((if q then [stocks[0]] else []) + rest)
  }

  /** `filter_by_risk(stocks, risk_level)`, `None` when it raises. An unknown
      level returns the input itself without reading any field (for an empty
      input the loop never runs and `[]` is returned, which is the input as
      well). For a known level it raises exactly when some stock's test does;
      otherwise it keeps, in input order, every copy of each qualifying stock
      and nothing else. */
  function FilterByRisk(stocks: seq<Record>, riskLevel: string): (r: Option<seq<Record>>)
    ensures ParseLevel(riskLevel) == Unknown ==> r == Some(stocks)
    ensures ParseLevel(riskLevel) != Unknown ==>
              (r.None? <==> exists i :: 0 <= i < |stocks| && Raises(stocks[i], ParseLevel(riskLevel)))
    ensures r.Some? ==> IsSubsequence(r.value, stocks)
    ensures ParseLevel(riskLevel) != Unknown && r.Some? ==>
              forall s :: multiset(r.value)[s] == if Qualifies(s, ParseLevel(riskLevel)) then multiset(stocks)[s] else 0
  {
    var level := ParseLevel(riskLevel);
    if level == Unknown then
      SubsequenceReflexive(stocks);
      Some(stocks)
    else
      KeepRaises(stocks, level);
      if Keep(stocks, level).Some? then
        KeepSpec(stocks, level);
        Keep(stocks, level)
      else
        Keep(stocks, level)
  }

  lemma {:induction false} SubsequenceReflexive(s: seq<Record>)
    ensures IsSubsequence(s, s)
  {
    if s != [] {
      SubsequenceReflexive(s[1..]);
    }
  }

  /** The loop raises exactly when one of the stocks' tests raises. */
  lemma {:induction false} KeepRaises(stocks: seq<Record>, level: RiskLevel)
    requires level != Unknown
    ensures Keep(stocks, level).None? <==> exists i :: 0 <= i < |stocks| && Raises(stocks[i], level)
  {
    if stocks != [] {
      var rest := stocks[1..];
      KeepRaises(rest, level);
      if exists i :: 0 <= i < |rest| && Raises(rest[i], level) {
        var i :| 0 <= i < |rest| && Raises(rest[i], level);
        assert stocks[i + 1] == rest[i];
      }
      if exists i :: 0 <= i < |stocks| && Raises(stocks[i], level) {
        var i :| 0 <= i < |stocks| && Raises(stocks[i], level);
        if i > 0 {
          assert rest[i - 1] == stocks[i];
        }
      }
    }
  }

  /** When the loop finishes, it keeps an order-preserving subsequence holding
      every copy of each qualifying stock and nothing else. */
  lemma KeepSpec(stocks: seq<Record>, level: RiskLevel)
    requires level != Unknown
    requires Keep(stocks, level).Some?
    ensures IsSubsequence(Keep(stocks, level).value, stocks)
    ensures forall s :: multiset(Keep(stocks, level).value)[s] == if Qualifies(s, level) then multiset(stocks)[s] else 0
  {
    KeepSubsequence(stocks, level);
    KeepCounts(stocks, level);
  }

  lemma {:induction false} KeepSubsequence(stocks: seq<Record>, level: RiskLevel)
    requires level != Unknown
    requires Keep(stocks, level).Some?
    ensures IsSubsequence(Keep(stocks, level).value, stocks)
  {
    if stocks != [] {
      var rest := stocks[1..];
      var kept := Keep(stocks, level).value;
      var tail := Keep(rest, level).value;
      KeepSubsequence(rest, level);
      if Qualifies(stocks[0], level) {
        assert kept == [stocks[0]] + tail;
        assert kept[1..] == tail;
      } else {
        assert kept == tail;
        SubsequenceCons(tail, stocks[0], rest);
      }
    }
  }

  lemma {:induction false} KeepCounts(stocks: seq<Record>, level: RiskLevel)
    requires level != Unknown
    requires Keep(stocks, level).Some?
    ensures forall s :: multiset(Keep(stocks, level).value)[s] == if Qualifies(s, level) then multiset(stocks)[s] else 0
  {
    if stocks != [] {
      var rest := stocks[1..];
      var kept := Keep(stocks, level).value;
      var tail := Keep(rest, level).value;
      KeepCounts(rest, level);
      assert stocks == [stocks[0]] + rest;
      assert multiset(stocks) == multiset{stocks[0]} + multiset(rest);
      if Qualifies(stocks[0], level) {
        assert kept == [stocks[0]] + tail;
        assert multiset(kept) == multiset{stocks[0]} + multiset(tail);
      } else {
        assert kept == tail;
      }
    }
  }

  /** The level is matched case-insensitively: "LOW", "Low" and "low" filter alike. */
  lemma CaseInsensitive(stocks: seq<Record>, riskLevel: string)
    ensures FilterByRisk(stocks, riskLevel) == FilterByRisk(stocks, Lower(riskLevel))
  {
    LowerIdempotent(riskLevel);
  }

  /** No stock is both low and medium risk: the market-cap bands do not overlap. */
  lemma LowAndMediumDisjoint(stock: Record)
    ensures !(Qualifies(stock, Low) && Qualifies(stock, Medium))
  {
  }

  /** A stock without a debt-to-equity ratio is never kept at low or medium risk. */
  lemma MissingDebtExcluded(stocks: seq<Record>, riskLevel: string, s: Record)
    requires ParseLevel(riskLevel) == Low || ParseLevel(riskLevel) == Medium
    requires "debtToEquity" !in s
    ensures var r := FilterByRisk(stocks, riskLevel);
            r.Some? ==> s !in r.value
  {
    var r := FilterByRisk(stocks, riskLevel);
    if r.Some? {
      assert !Qualifies(s, ParseLevel(riskLevel));
      assert multiset(r.value)[s] == 0;
    }
  }

  /** A stock without a market cap reads as cap 0, which is small: its test at
      high risk passes without reading anything else, so it never raises and,
      unless another stock raises, it is kept. */
  lemma MissingCapIsHighRisk(stocks: seq<Record>, riskLevel: string, s: Record)
    requires ParseLevel(riskLevel) == High
    requires s in stocks && "marketCap" !in s
    ensures Qualifies(s, High)
    ensures var r := FilterByRisk(stocks, riskLevel);
            r.Some? ==> s in r.value
  {
    var r := FilterByRisk(stocks, riskLevel);
    if r.Some? {
      assert multiset(r.value)[s] == multiset(stocks)[s];
    }
  }

  /** Short-circuit: at low risk, a stock whose market cap is not above the
      large-cap bound is rejected before its debt or dividend fields are read,
      whatever they hold. */
  lemma LowRejectsSmallCapFirst(stock: Record, mc: real, debt: Value, dividend: Value)
    requires FieldOrZero(stock, "marketCap") == Some(mc) && mc <= LargeCap
    ensures Test(stock["debtToEquity" := debt]["dividendYield" := dividend], Low) == Some(false)
  {
  }

  /** A present None (or any other non-number) in a field the test reaches
      makes `filter_by_risk` raise. */
  lemma NoneFieldRaises(stocks: seq<Record>, riskLevel: string, i: nat)
    requires ParseLevel(riskLevel) != Unknown
    requires i < |stocks| && Get(stocks[i], "marketCap") == VNone && "marketCap" in stocks[i]
    ensures FilterByRisk(stocks, riskLevel).None?
  {
    assert Raises(stocks[i], ParseLevel(riskLevel));
  }
}
