/** `ScreenerUtils.combine_results`: merge the per-provider result lists into one
    record per ticker. The first record seen for a ticker is the base; later
    records only fill keys that are absent or None; every contributing provider
    is listed, in visiting order, under "providers". */
module Combine {
  import opened Values

  const ProvidersKey: string := "providers"
  const TickerKey: string := "ticker"

  /** `results.items()`, in dict order: provider name and its result list. */
  type ProviderResults = seq<(string, seq<Record>)>

  /** One stock record and the provider whose list it came from. */
  datatype Entry = Entry(provider: string, stock: Record)

  function Tagged(provider: string, stocks: seq<Record>): (es: seq<Entry>)
    ensures |es| == |stocks|
    ensures forall i :: 0 <= i < |stocks| ==> es[i] == Entry(provider, stocks[i])
  {
    seq(|stocks|, i requires 0 <= i < |stocks| => Entry(provider, stocks[i]))
  }

  /** The records in the order the two nested loops visit them. */
  function Flatten(results: ProviderResults): seq<Entry> {
    if results == [] then [] else Tagged(results[0].0, results[0].1) + Flatten(results[1..])
  }

  /** The record's ticker, None when it has none. */
  function TickerOf(e: Entry): Value {
    Get(e.stock, TickerKey)
  }

  /** `ticker_map`: the tickers in insertion order and the record of each. */
  datatype Merged = Merged(order: seq<Value>, byTicker: map<Value, Record>)

  ghost predicate WellFormed(m: Merged) {
    && (forall i, j :: 0 <= i < j < |m.order| ==> m.order[i] != m.order[j])
    && (forall t :: t in m.byTicker <==> t in m.order)
  }

  /** The list stored under "providers". */
  function ProvidersOf(r: Record): seq<Value> {
    if ProvidersKey in r && r[ProvidersKey].VList? then r[ProvidersKey].items else []
  }

  /** One iteration of the inner loop. */
  function Step(acc: Merged, e: Entry): Merged {
    var t := TickerOf(e);
    if !Truthy(t) then acc
    else if t !in acc.byTicker then
      Merged(acc.order + [t], acc.byTicker[t := e.stock[ProvidersKey := VList([VStr(e.provider)])]])
    else
      var existing := acc.byTicker[t];
      var filled := Fill(existing, e.stock, ProvidersKey);
      Merged(acc.order, acc.byTicker[t := filled[ProvidersKey := VList(ProvidersOf(existing) + [VStr(e.provider)])]])
  }

  /** `ticker_map` after visiting `es`. */
  function MergeAll(es: seq<Entry>): (m: Merged)
    ensures WellFormed(m)
  {
    if es == [] then Merged([], map[])
    else Step(MergeAll(es[..|es| - 1]), es[|es| - 1])
  }

  /** The map's records in insertion order. */
  function RecordsOf(m: Merged): seq<Record>
    requires WellFormed(m)
  {
    seq(|m.order|, i requires 0 <= i < |m.order| => m.byTicker[m.order[i]])
  }

  /** Python can use a ticker as a dict key only when it is hashable: lists
      and dicts are not. */
  predicate Hashable(v: Value) {
    !v.VList? && !v.VMap?
  }

  /** A record whose truthy ticker cannot be looked up in the ticker map:
      the membership test raises `TypeError`. */
  predicate UnhashableTicker(stock: Record) {
    Truthy(Get(stock, TickerKey)) && !Hashable(Get(stock, TickerKey))
  }

  /** `combine_results(results)`, `None` when it raises: the map's records in
      insertion order, unless some provider's list holds a record with a truthy
      list or dict ticker, which `combine_results` does not survive. */
  function CombineResults(results: ProviderResults): (out: Option<seq<Record>>)
    ensures out.None? <==>
              exists j, stock :: 0 <= j < |results| && stock in results[j].1 && UnhashableTicker(stock)
  {
    FlattenStocks(results);
    if exists e :: e in Flatten(results) && UnhashableTicker(e.stock) then None
    else Some(RecordsOf(MergeAll(Flatten(results))))
  }

  /** Some visited record has an unhashable ticker exactly when some provider
      list holds one. */
  lemma {:induction false} FlattenStocks(results: ProviderResults)
    ensures (exists e :: e in Flatten(results) && UnhashableTicker(e.stock)) <==>
            (exists j, stock :: 0 <= j < |results| && stock in results[j].1 && UnhashableTicker(stock))
  {
    if results != [] {
      var head := Tagged(results[0].0, results[0].1);
      var rest := results[1..];
      FlattenStocks(rest);
      assert Flatten(results) == head + Flatten(rest);
      if exists e :: e in Flatten(results) && UnhashableTicker(e.stock) {
        var e :| e in Flatten(results) && UnhashableTicker(e.stock);
        if e in head {
          var i :| 0 <= i < |head| && head[i] == e;
          assert e.stock in results[0].1;
        } else {
          assert e in Flatten(rest);
          var j, stock :| 0 <= j < |rest| && stock in rest[j].1 && UnhashableTicker(stock);
          assert results[j + 1] == rest[j];
        }
      }
      if exists j, stock :: 0 <= j < |results| && stock in results[j].1 && UnhashableTicker(stock) {
        var j, stock :| 0 <= j < |results| && stock in results[j].1 && UnhashableTicker(stock);
        if j == 0 {
          var i :| 0 <= i < |results[0].1| && results[0].1[i] == stock;
          assert head[i] in Flatten(results);
        } else {
          assert stock in rest[j - 1].1;
          var e :| e in Flatten(rest) && UnhashableTicker(e.stock);
          assert e in Flatten(results);
        }
      }
    }
  }

  // ---------------------------------------------------------------------------
  // Reference definition of a ticker's merged record

  /** The records carrying ticker `t`, in visiting order. */
  function Contributors(es: seq<Entry>, t: Value): seq<Record> {
    if es == [] then []
    else Contributors(es[..|es| - 1], t) + (if TickerOf(es[|es| - 1]) == t then [es[|es| - 1].stock] else [])
  }

  /** The providers of those records, one per record, in visiting order. */
  function ContributingProviders(es: seq<Entry>, t: Value): seq<Value> {
    if es == [] then []
    else ContributingProviders(es[..|es| - 1], t)
         + (if TickerOf(es[|es| - 1]) == t then [VStr(es[|es| - 1].provider)] else [])
  }

  /** The first non-None value of key `k` among `cs`, or None if there is none. */
  function FirstNonNone(cs: seq<Record>, k: string): Value {
    if cs == [] then VNone
    else
      var earlier := FirstNonNone(cs[..|cs| - 1], k);
      if earlier != VNone then earlier else Get(cs[|cs| - 1], k)
  }

  /** Every key of every record in `cs`. */
  function KeysOf(cs: seq<Record>): set<string> {
    if cs == [] then {} else KeysOf(cs[..|cs| - 1]) + cs[|cs| - 1].Keys
  }

  /** What the merged record of ticker `t` must be: "providers" lists the
      contributing providers; any other key is present when the first record has
      it or some record holds a non-None value for it, and it holds the first
      non-None value (None if there is none). */
  function Expected(es: seq<Entry>, t: Value): Record
    requires Contributors(es, t) != []
  {
    var cs := Contributors(es, t);
    map k | k in KeysOf(cs) + {ProvidersKey} && (k == ProvidersKey || k in cs[0] || FirstNonNone(cs, k) != VNone)
      :: if k == ProvidersKey then VList(ContributingProviders(es, t)) else FirstNonNone(cs, k)
  }

  /** A ticker is seen within the first `n` visited records. */
  ghost predicate SeenWithin(es: seq<Entry>, n: nat, t: Value)
    requires n <= |es|
  {
    Contributors(es[..n], t) != []
  }

  /** Everything the merge maintains, stated against the reference definitions. */
  ghost predicate Invariant(es: seq<Entry>, m: Merged) {
    && WellFormed(m)
    && (forall t :: t in m.byTicker <==> Truthy(t) && Contributors(es, t) != [])
    && (forall t :: t in m.byTicker ==> Contributors(es, t) != [] && m.byTicker[t] == Expected(es, t))
    && FirstSeenOrder(es, m.order)
  }

  /** `order` lists tickers by first appearance in `es`: whenever a prefix of
      `es` has seen a later ticker of `order`, it has seen every earlier one. */
  ghost predicate FirstSeenOrder(es: seq<Entry>, order: seq<Value>) {
    forall i, j, n: nat :: 0 <= i < j < |order| && n <= |es| && SeenWithin(es, n, order[j])
      ==> SeenWithin(es, n, order[i])
  }

  // ---------------------------------------------------------------------------
  // Lemmas about the reference definitions

  lemma KeysOfCovers(cs: seq<Record>, k: string)
    ensures cs != [] && k in cs[0] ==> k in KeysOf(cs)
    ensures FirstNonNone(cs, k) != VNone ==> k in KeysOf(cs)
  {
    if cs != [] {
      var init := cs[..|cs| - 1];
      KeysOfCovers(init, k);
      if |cs| > 1 {
        assert init[0] == cs[0];
      }
    }
  }

  /** Unfolding the prefix-recursive definitions at `es + [e]`. */
  lemma Snoc(es: seq<Entry>, e: Entry, t: Value)
    ensures Contributors(es + [e], t) == Contributors(es, t) + (if TickerOf(e) == t then [e.stock] else [])
    ensures ContributingProviders(es + [e], t)
            == ContributingProviders(es, t) + (if TickerOf(e) == t then [VStr(e.provider)] else [])
    ensures MergeAll(es + [e]) == Step(MergeAll(es), e)
  {
    assert (es + [e])[..|es|] == es;
  }

  lemma {:induction false} ContributorsPrefixEmpty(es: seq<Entry>, n: nat, t: Value)
    requires n <= |es|
    requires Contributors(es, t) == []
    ensures Contributors(es[..n], t) == []
  {
    if n < |es| {
      var init := es[..|es| - 1];
      ContributorsPrefixEmpty(init, n, t);
      assert init[..n] == es[..n];
    } else {
      assert es[..n] == es;
    }
  }

  lemma {:induction false} ContributorsTicker(es: seq<Entry>, t: Value)
    ensures forall c :: c in Contributors(es, t) ==> Get(c, TickerKey) == t
  {
    if es != [] {
      ContributorsTicker(es[..|es| - 1], t);
    }
  }

  /** All records of a ticker carry it, so the merged ticker field is that ticker. */
  lemma {:induction false} FirstNonNoneOfShared(cs: seq<Record>, k: string, v: Value)
    requires cs != [] && v != VNone
    requires forall c :: c in cs ==> Get(c, k) == v
    ensures FirstNonNone(cs, k) == v
  {
    var init := cs[..|cs| - 1];
    if init != [] {
      FirstNonNoneOfShared(init, k, v);
    } else {
      assert FirstNonNone(init, k) == VNone;
    }
  }

  // ---------------------------------------------------------------------------
  // The merge agrees with the reference

  lemma StepNew(es: seq<Entry>, m: Merged, e: Entry)
    requires Invariant(es, m)
    requires Truthy(TickerOf(e)) && TickerOf(e) !in m.byTicker
    ensures var t := TickerOf(e);
            Contributors(es + [e], t) != [] &&
            e.stock[ProvidersKey := VList([VStr(e.provider)])] == Expected(es + [e], t)
  {
    var t := TickerOf(e);
    Snoc(es, e, t);
    assert Contributors(es, t) == [];
    var cs := Contributors(es + [e], t);
    assert cs == [e.stock];
    assert ContributingProviders(es, t) == [] by {
      ProvidersEmpty(es, t);
    }
    SingleContributor(e.stock);
    var a := e.stock[ProvidersKey := VList([VStr(e.provider)])];
    var b := Expected(es + [e], t);
    assert a.Keys == b.Keys;
    forall k | k in a ensures a[k] == b[k] {
    }
  }

  /** With a single contributor, the reference keys and values are its own. */
  lemma SingleContributor(r: Record)
    ensures KeysOf([r]) == r.Keys
    ensures forall k :: FirstNonNone([r], k) == Get(r, k)
  {
    assert [r][..0] == [];
  }

  lemma {:induction false} ProvidersEmpty(es: seq<Entry>, t: Value)
    requires Contributors(es, t) == []
    ensures ContributingProviders(es, t) == []
  {
    if es != [] {
      ProvidersEmpty(es[..|es| - 1], t);
    }
  }

  lemma {:induction false} ProvidersCount(es: seq<Entry>, t: Value)
    ensures |ContributingProviders(es, t)| == |Contributors(es, t)|
  {
    if es != [] {
      ProvidersCount(es[..|es| - 1], t);
    }
  }

  /** `r` matches the reference merge of `cs` on every key other than "providers". */
  ghost predicate Agrees(r: Record, cs: seq<Record>)
    requires cs != []
  {
    forall k :: k != ProvidersKey ==>
      && (k in r <==> k in cs[0] || FirstNonNone(cs, k) != VNone)
      && (k in r ==> r[k] == FirstNonNone(cs, k))
  }

  lemma ExpectedAgrees(es: seq<Entry>, t: Value)
    requires Contributors(es, t) != []
    ensures Agrees(Expected(es, t), Contributors(es, t))
    ensures ProvidersKey in Expected(es, t)
    ensures Expected(es, t)[ProvidersKey] == VList(ContributingProviders(es, t))
  {
    var cs := Contributors(es, t);
    forall k | k != ProvidersKey
      ensures k in Expected(es, t) <==> k in cs[0] || FirstNonNone(cs, k) != VNone
    {
      KeysOfCovers(cs, k);
    }
  }

  /** Two records that agree with the same reference and hold the same
      "providers" entry are equal. */
  lemma AgreesUnique(a: Record, b: Record, cs: seq<Record>)
    requires cs != []
    requires Agrees(a, cs) && Agrees(b, cs)
    requires ProvidersKey in a && ProvidersKey in b && a[ProvidersKey] == b[ProvidersKey]
    ensures a == b
  {
    forall k ensures k in a <==> k in b {
    }
    forall k | k in a ensures a[k] == b[k] {
    }
  }

  /** Filling from one more record extends the reference by that record. */
  lemma FillAgrees(r: Record, s: Record, cs: seq<Record>)
    requires cs != []
    requires Agrees(r, cs)
    ensures Agrees(Fill(r, s, ProvidersKey), cs + [s])
  {
    var cs' := cs + [s];
    assert cs'[..|cs'| - 1] == cs;
    assert cs'[0] == cs[0];
    var f := Fill(r, s, ProvidersKey);
    forall k | k != ProvidersKey
      ensures k in f <==> k in cs'[0] || FirstNonNone(cs', k) != VNone
      ensures k in f ==> f[k] == FirstNonNone(cs', k)
    {
      assert FirstNonNone(cs', k) == if FirstNonNone(cs, k) != VNone then FirstNonNone(cs, k) else Get(s, k);
    }
  }

  lemma StepExisting(es: seq<Entry>, m: Merged, e: Entry)
    requires Invariant(es, m)
    requires Truthy(TickerOf(e)) && TickerOf(e) in m.byTicker
    ensures var t := TickerOf(e);
            var existing := m.byTicker[t];
            Contributors(es + [e], t) != [] &&
            Fill(existing, e.stock, ProvidersKey)[ProvidersKey := VList(ProvidersOf(existing) + [VStr(e.provider)])]
              == Expected(es + [e], t)
  {
    var t := TickerOf(e);
    Snoc(es, e, t);
    var cs := Contributors(es, t);
    var existing := m.byTicker[t];
    ExpectedAgrees(es, t);
    ExpectedAgrees(es + [e], t);
    FillAgrees(existing, e.stock, cs);
    var f := Fill(existing, e.stock, ProvidersKey);
    var a := f[ProvidersKey := VList(ProvidersOf(existing) + [VStr(e.provider)])];
    assert Agrees(a, cs + [e.stock]) by {
      forall k | k != ProvidersKey
        ensures k in a <==> k in f
        ensures k in a ==> a[k] == f[k]
      {
      }
    }
    AgreesUnique(a, Expected(es + [e], t), cs + [e.stock]);
  }

  lemma StepMembership(es: seq<Entry>, e: Entry)
    requires Invariant(es, MergeAll(es))
    ensures forall u :: u in MergeAll(es + [e]).byTicker <==> Truthy(u) && Contributors(es + [e], u) != []
  {
    Snoc(es, e, TickerOf(e));
    forall u ensures u in MergeAll(es + [e]).byTicker <==> Truthy(u) && Contributors(es + [e], u) != [] {
      Snoc(es, e, u);
    }
  }

  lemma StepRecords(es: seq<Entry>, e: Entry)
    requires Invariant(es, MergeAll(es))
    ensures forall u :: u in MergeAll(es + [e]).byTicker ==>
              Contributors(es + [e], u) != [] && MergeAll(es + [e]).byTicker[u] == Expected(es + [e], u)
  {
    var m := MergeAll(es);
    var es' := es + [e];
    var t := TickerOf(e);
    Snoc(es, e, t);
    var m' := MergeAll(es');
    if Truthy(t) {
      if t !in m.byTicker {
        StepNew(es, m, e);
      } else {
        StepExisting(es, m, e);
      }
    }
    forall u | u in m'.byTicker ensures Contributors(es', u) != [] && m'.byTicker[u] == Expected(es', u) {
      Snoc(es, e, u);
      if u != t {
        assert m'.byTicker[u] == m.byTicker[u];
        assert Contributors(es', u) == Contributors(es, u);
        assert ContributingProviders(es', u) == ContributingProviders(es, u);
      }
    }
  }

  lemma SeenWithinSnoc(es: seq<Entry>, e: Entry, n: nat, u: Value)
    requires n <= |es|
    ensures SeenWithin(es + [e], n, u) == SeenWithin(es, n, u)
  {
    assert (es + [e])[..n] == es[..n];
  }

  lemma SeenWithinAll(es: seq<Entry>, u: Value)
    ensures SeenWithin(es, |es|, u) == (Contributors(es, u) != [])
  {
    assert es[..|es|] == es;
  }

  /** Extending the visited records keeps the order of the tickers seen so far
      and may append one ticker no earlier prefix has seen. */
  lemma FirstSeenOrderSnoc(es: seq<Entry>, e: Entry, order: seq<Value>, order': seq<Value>)
    requires FirstSeenOrder(es, order)
    requires order' == order || (order' == order + [TickerOf(e)] && Contributors(es, TickerOf(e)) == [])
    requires forall u :: u in order' ==> Contributors(es + [e], u) != []
    ensures FirstSeenOrder(es + [e], order')
  {
    var es' := es + [e];
    forall i, j, n: nat | 0 <= i < j < |order'| && n <= |es'| && SeenWithin(es', n, order'[j])
      ensures SeenWithin(es', n, order'[i])
    {
      if n == |es'| {
        SeenWithinAll(es', order'[i]);
        assert order'[i] in order';
      } else {
        SeenWithinSnoc(es, e, n, order'[j]);
        SeenWithinSnoc(es, e, n, order'[i]);
        if j == |order| {
          ContributorsPrefixEmpty(es, n, TickerOf(e));
          assert false;
        } else {
          assert order'[i] == order[i] && order'[j] == order[j];
        }
      }
    }
  }

  lemma StepOrder(es: seq<Entry>, e: Entry)
    requires Invariant(es, MergeAll(es))
    ensures FirstSeenOrder(es + [e], MergeAll(es + [e]).order)
  {
    var m := MergeAll(es);
    var t := TickerOf(e);
    Snoc(es, e, t);
    StepMembership(es, e);
    var m' := MergeAll(es + [e]);
    assert forall u :: u in m'.order ==> u in m'.byTicker;
    FirstSeenOrderSnoc(es, e, m.order, m'.order);
  }

  lemma StepPreserves(es: seq<Entry>, e: Entry)
    requires Invariant(es, MergeAll(es))
    ensures Invariant(es + [e], MergeAll(es + [e]))
  {
    StepMembership(es, e);
    StepRecords(es, e);
    StepOrder(es, e);
  }

  lemma {:induction false} MergeAllInvariant(es: seq<Entry>)
    ensures Invariant(es, MergeAll(es))
  {
    if es != [] {
      var init := es[..|es| - 1];
      MergeAllInvariant(init);
      assert init + [es[|es| - 1]] == es;
      StepPreserves(init, es[|es| - 1]);
    }
  }

  // ---------------------------------------------------------------------------
  // The promises of combine_results

  /** Each output record carries the ticker it was filed under. */
  lemma CombineTickers(results: ProviderResults)
    ensures CombineResults(results).Some? ==>
            var m := MergeAll(Flatten(results));
            var out := CombineResults(results).value;
            |out| == |m.order| &&
            forall i :: 0 <= i < |out| ==> Get(out[i], TickerKey) == m.order[i]
  {
    var es := Flatten(results);
    var m := MergeAll(es);
    var out := RecordsOf(m);
    MergeAllInvariant(es);
    forall i | 0 <= i < |out| ensures Get(out[i], TickerKey) == m.order[i] {
      var t := m.order[i];
      assert t in m.byTicker;
      var cs := Contributors(es, t);
      ContributorsTicker(es, t);
      FirstNonNoneOfShared(cs, TickerKey, t);
      ExpectedAgrees(es, t);
    }
  }

  /** Every output record has a truthy ticker and is the reference merge of
      that ticker's records. */
  lemma CombineMatchesReference(results: ProviderResults)
    ensures CombineResults(results).Some? ==>
            var es := Flatten(results);
            var out := CombineResults(results).value;
            forall i :: 0 <= i < |out| ==>
              var t := Get(out[i], TickerKey);
              Truthy(t) && Contributors(es, t) != [] && out[i] == Expected(es, t)
  {
    var es := Flatten(results);
    MergeAllInvariant(es);
    CombineTickers(results);
  }

  /** At most one output record per ticker. */
  lemma CombineOnePerTicker(results: ProviderResults)
    ensures CombineResults(results).Some? ==>
            var out := CombineResults(results).value;
            forall i, j :: 0 <= i < j < |out| ==> Get(out[i], TickerKey) != Get(out[j], TickerKey)
  {
    CombineTickers(results);
  }

  /** A ticker has an output record exactly when some visited record carries it
      and it is truthy: records with a missing or empty ticker are dropped. */
  lemma CombineCoversTickers(results: ProviderResults, t: Value)
    ensures CombineResults(results).Some? ==>
            var out := CombineResults(results).value;
            (Truthy(t) && Contributors(Flatten(results), t) != [] <==>
              exists i :: 0 <= i < |out| && Get(out[i], TickerKey) == t)
  {
    var es := Flatten(results);
    var m := MergeAll(es);
    var out := RecordsOf(m);
    MergeAllInvariant(es);
    CombineTickers(results);
    if CombineResults(results).Some? && Truthy(t) && Contributors(es, t) != [] {
      assert CombineResults(results).value == out;
      assert t in m.order;
      var i :| 0 <= i < |m.order| && m.order[i] == t;
      assert Get(out[i], TickerKey) == t;
    }
  }

  /** Output order is first-appearance order: whenever a prefix of the visited
      records has seen a later output ticker, it has seen every earlier one. */
  lemma CombineFirstAppearanceOrder(results: ProviderResults)
    ensures CombineResults(results).Some? ==>
            var es := Flatten(results);
            var out := CombineResults(results).value;
            forall i, j, n: nat :: 0 <= i < j < |out| && n <= |es| && SeenWithin(es, n, Get(out[j], TickerKey))
              ==> SeenWithin(es, n, Get(out[i], TickerKey))
  {
    MergeAllInvariant(Flatten(results));
    CombineTickers(results);
  }

  /** A ticker's "providers" list names each contributing record's provider,
      in visiting order, one entry per record. */
  lemma ProvidersListed(es: seq<Entry>, t: Value)
    requires Contributors(es, t) != []
    ensures Expected(es, t)[ProvidersKey] == VList(ContributingProviders(es, t))
    ensures |ContributingProviders(es, t)| == |Contributors(es, t)|
  {
    ProvidersCount(es, t);
  }

  /** Merge precedence: if record `m` is the first of the ticker's records with a
      non-None value at `k`, the merged record holds exactly that value, so no
      later record overwrites it. */
  lemma {:induction false} FirstValueWins(cs: seq<Record>, k: string, m: nat)
    requires m < |cs|
    requires k in cs[m] && cs[m][k] != VNone
    requires forall i :: 0 <= i < m ==> Get(cs[i], k) == VNone
    ensures FirstNonNone(cs, k) == cs[m][k]
  {
    var init := cs[..|cs| - 1];
    if m < |cs| - 1 {
      FirstValueWins(init, k, m);
    } else {
      NoneBefore(init, k);
    }
  }

  lemma {:induction false} NoneBefore(cs: seq<Record>, k: string)
    requires forall i :: 0 <= i < |cs| ==> Get(cs[i], k) == VNone
    ensures FirstNonNone(cs, k) == VNone
  {
    if cs != [] {
      NoneBefore(cs[..|cs| - 1], k);
    }
  }

  /** The same, stated on the combined output. */
  lemma MergePrecedence(es: seq<Entry>, t: Value, k: string, m: nat)
    requires k != ProvidersKey
    requires m < |Contributors(es, t)|
    requires k in Contributors(es, t)[m] && Contributors(es, t)[m][k] != VNone
    requires forall i :: 0 <= i < m ==> Get(Contributors(es, t)[i], k) == VNone
    ensures k in Expected(es, t) && Expected(es, t)[k] == Contributors(es, t)[m][k]
  {
    var cs := Contributors(es, t);
    FirstValueWins(cs, k, m);
    KeysOfCovers(cs, k);
  }

  /** A key whose value is None in every record is kept (as None) only when the
      first record has it: later records never add None-valued keys. */
  lemma NoneOnlyFromBase(es: seq<Entry>, t: Value, k: string)
    requires k != ProvidersKey
    requires Contributors(es, t) != []
    requires forall i :: 0 <= i < |Contributors(es, t)| ==> Get(Contributors(es, t)[i], k) == VNone
    ensures k in Expected(es, t) <==> k in Contributors(es, t)[0]
    ensures k in Expected(es, t) ==> Expected(es, t)[k] == VNone
  {
    var cs := Contributors(es, t);
    NoneBefore(cs, k);
    KeysOfCovers(cs, k);
  }
}
