/** `ScreenerUtils.get_stock_details_from_multiple_sources`: ask several
    registered screeners for one ticker's details and merge them. The first
    provider with non-empty details supplies the base record; each later
    provider's record is stored whole under `<provider>_data` and fills the
    top-level keys the merged record still lacks.

    The loop and its lemmas take `fetch`, the details each registered provider
    answers for the ticker, as a function; `Fetcher` supplies it from the
    registered screeners. */
module MultiSourceDetails {
  import opened Values
  import opened ScreenerUtils

  const ProviderKey: string := "provider"

  /** The key a later provider's whole record is stored under. */
  function DataKey(p: string): string {
    p + "_data"
  }

  /** No data key collides with the provider key ("provider" does not end in
      "_data"), so storing a record never hides the base provider's name. */
  lemma DataKeyNotProviderKey(p: string)
    ensures DataKey(p) != ProviderKey
  {
    if |DataKey(p)| == |ProviderKey| {
      assert DataKey(p)[|p|] == '_';
      assert ProviderKey[3] == 'v';
    }
  }

  /** Non-empty details are stamped with the name of the provider that
      returned them; empty details stay empty. */
  function Tag(pd: Record, p: string): (t: Record)
    ensures pd == map[] ==> t == map[]
    ensures pd != map[] ==> t.Keys == pd.Keys + {ProviderKey} && t[ProviderKey] == VStr(p)
    ensures forall k :: k in pd && k != ProviderKey ==> k in t && t[k] == pd[k]
    ensures forall k :: k in t && k != ProviderKey ==> k in pd
    ensures NoneFree(pd) ==> NoneFree(t)
  {
    if pd == map[] then pd else pd[ProviderKey := VStr(p)]
  }

  /** One pass of the loop body for a registered provider `p` whose screener
      returned `pd`. */
  function Merge(details: Record, p: string, pd: Record): (r: Record)
    ensures details == map[] ==> r == Tag(pd, p)
    ensures details != map[] ==> DataKey(p) in r && r[DataKey(p)] == VMap(Tag(pd, p))
    ensures details != map[] ==>
              forall k :: k in details && details[k] != VNone && k != DataKey(p) ==> k in r && r[k] == details[k]
    ensures details != map[] ==>
              forall k :: k in r && k !in details && k != DataKey(p) ==> k in pd && pd[k] != VNone && r[k] == pd[k]
    ensures details != map[] ==> (ProviderKey in r <==> ProviderKey in details)
    ensures details != map[] && ProviderKey in details ==> r[ProviderKey] == details[ProviderKey]
    ensures NoneFree(details) && NoneFree(pd) ==> NoneFree(r)
  {
    var t := Tag(pd, p);
    DataKeyNotProviderKey(p);
    if details == map[] then t
    else Fill(details[DataKey(p) := VMap(t)], t, ProviderKey)
  }

  /** The loop over `providers`, skipping unregistered names. */
  function Gather(u: Utils, ps: seq<string>, fetch: string -> Record): Record {
    if ps == [] then map[]
    else
      var d := Gather(u, ps[..|ps| - 1], fetch);
      var p := ps[|ps| - 1];
      if p !in u.screeners then d
      else Merge(d, p, fetch(p))
  }

  /** The provider names consulted: the given list, or every registered name
      in registration order when it is missing or empty. */
  function Consulted(u: Utils, providers: Option<seq<string>>): (ps: seq<string>)
    ensures providers.Some? && providers.value != [] ==> ps == providers.value
    ensures providers.None? || providers.value == [] ==> ps == u.names
  {
    if providers.None? || providers.value == [] then u.names else providers.value
  }

  /** `get_stock_details_from_multiple_sources(ticker, providers)`: the merged
      details never hold None; they are empty exactly when no consulted provider
      returned details, and otherwise name the first that did; every other
      top-level key that is not a `_data` key holds the value of the first
      consulted provider whose record has it. */
  function DetailsFromMultipleSources(u: Utils, ticker: string, providers: Option<seq<string>>, io: Endpoints): (r: Record)
    ensures NoneFree(r)
    ensures r == map[] <==> FirstSource(u, Consulted(u, providers), Fetcher(u, ticker, io)).None?
    ensures FirstSource(u, Consulted(u, providers), Fetcher(u, ticker, io)).Some? ==>
              ProviderKey in r && r[ProviderKey] == VStr(FirstSource(u, Consulted(u, providers), Fetcher(u, ticker, io)).value)
    ensures forall k :: k != ProviderKey && (forall q :: q in Consulted(u, providers) ==> k != DataKey(q)) ==>
              Get(r, k) == FirstHaving(u, Consulted(u, providers), k, Fetcher(u, ticker, io))
  {
    var ps := Consulted(u, providers);
    var fetch := Fetcher(u, ticker, io);
    FetcherNoneFree(u, ticker, io);
    GatherNoneFree(u, ps, fetch);
    BaseProviderIsFirstSource(u, ps, fetch);
    AllKeysFromFirstHaving(u, ps, fetch);
    Gather(u, ps, fetch)
  }

  /** What each registered screener answers for `ticker`; `{}` for a name
      that is not registered (the loop never asks it). */
  function Fetcher(u: Utils, ticker: string, io: Endpoints): string -> Record {
    q => if q in u.screeners then StockDetails(u.screeners[q], ticker, io) else map[]
  }

  /** Neither screener's details hold None. */
  lemma FetcherNoneFree(u: Utils, ticker: string, io: Endpoints)
    ensures AllNoneFree(Fetcher(u, ticker, io))
  {
  }

  /** Every provider's details are free of None. */
  ghost predicate AllNoneFree(fetch: string -> Record) {
    forall q :: NoneFree(fetch(q))
  }

  // ---------------------------------------------------------------------------
  // Reference: what each provider contributes, and who contributes first

  /** Provider `q`'s tagged record, `{}` for an unregistered name. */
  function Source(u: Utils, q: string, fetch: string -> Record): Record {
    if q in u.screeners then Tag(fetch(q), q) else map[]
  }

  /** The first provider of `ps` with non-empty details. */
  function FirstSource(u: Utils, ps: seq<string>, fetch: string -> Record): (r: Option<string>)
    ensures r.Some? ==> r.value in ps && Source(u, r.value, fetch) != map[]
  {
    if ps == [] then None
    else if Source(u, ps[0], fetch) != map[] then Some(ps[0])
    else FirstSource(u, ps[1..], fetch)
  }

  /** The value of key `k` in the first provider record of `ps` that has it
      (None when no provider has it). */
  function FirstHaving(u: Utils, ps: seq<string>, k: string, fetch: string -> Record): Value {
    if ps == [] then VNone
    else if k in Source(u, ps[0], fetch) then Source(u, ps[0], fetch)[k]
    else FirstHaving(u, ps[1..], k, fetch)
  }

  lemma {:induction false} FirstSourceSnoc(u: Utils, ps: seq<string>, p: string, fetch: string -> Record)
    ensures FirstSource(u, ps + [p], fetch) ==
            if FirstSource(u, ps, fetch).Some? then FirstSource(u, ps, fetch)
            else if Source(u, p, fetch) != map[] then Some(p) else None
  {
    if ps == [] {
      assert [p][1..] == [];
    } else {
      assert (ps + [p])[0] == ps[0];
      assert (ps + [p])[1..] == ps[1..] + [p];
      FirstSourceSnoc(u, ps[1..], p, fetch);
    }
  }

  lemma {:induction false} FirstHavingSnoc(u: Utils, ps: seq<string>, p: string, k: string, fetch: string -> Record)
    requires forall q :: q in ps ==> NoneFree(Source(u, q, fetch))
    ensures FirstHaving(u, ps + [p], k, fetch) ==
            if FirstHaving(u, ps, k, fetch) != VNone then FirstHaving(u, ps, k, fetch)
            else Get(Source(u, p, fetch), k)
  {
    if ps == [] {
      assert [p][1..] == [];
    } else {
      assert (ps + [p])[0] == ps[0];
      assert (ps + [p])[1..] == ps[1..] + [p];
      FirstHavingSnoc(u, ps[1..], p, k, fetch);
    }
  }

  lemma SourceNoneFree(u: Utils, q: string, fetch: string -> Record)
    requires AllNoneFree(fetch)
    ensures NoneFree(Source(u, q, fetch))
  {
    if q in u.screeners {
      var pd := fetch(q);
      assert NoneFree(pd);
    }
  }

  // ---------------------------------------------------------------------------
  // What the merge promises

  /** The merged record never holds None. */
  lemma {:induction false} GatherNoneFree(u: Utils, ps: seq<string>, fetch: string -> Record)
    requires AllNoneFree(fetch)
    ensures NoneFree(Gather(u, ps, fetch))
  {
    if ps != [] {
      GatherNoneFree(u, ps[..|ps| - 1], fetch);
    }
  }

  /** The merged record is empty exactly when no provider returned details,
      and otherwise its `provider` entry names the first one that did. */
  lemma {:induction false} BaseProviderIsFirstSource(u: Utils, ps: seq<string>, fetch: string -> Record)
    ensures var r := Gather(u, ps, fetch);
            var f := FirstSource(u, ps, fetch);
            && (r == map[] <==> f.None?)
            && (f.Some? ==> ProviderKey in r && r[ProviderKey] == VStr(f.value))
  {
    if ps != [] {
      var qs := ps[..|ps| - 1];
      var p := ps[|ps| - 1];
      assert ps == qs + [p];
      BaseProviderIsFirstSource(u, qs, fetch);
      FirstSourceSnoc(u, qs, p, fetch);
      var d := Gather(u, qs, fetch);
      if p in u.screeners && d != map[] {
        var r := Gather(u, ps, fetch);
        assert ProviderKey in r;
      }
    }
  }

  /** Precedence: every top-level key other than `provider` and the `_data`
      keys holds the value of the first provider (in list order) whose record
      has it, and is absent when none has it. Earlier providers win; later ones
      only fill gaps. */
  lemma {:induction false} FirstProviderWins(u: Utils, ps: seq<string>, k: string, fetch: string -> Record)
    requires AllNoneFree(fetch)
    requires k != ProviderKey
    requires forall q :: q in ps ==> k != DataKey(q)
    ensures Get(Gather(u, ps, fetch), k) == FirstHaving(u, ps, k, fetch)
  {
    if ps != [] {
      var qs := ps[..|ps| - 1];
      var p := ps[|ps| - 1];
      assert ps == qs + [p];
      FirstProviderWins(u, qs, k, fetch);
      forall q | q in qs ensures NoneFree(Source(u, q, fetch)) {
        SourceNoneFree(u, q, fetch);
      }
      FirstHavingSnoc(u, qs, p, k, fetch);
      GatherNoneFree(u, qs, fetch);
      var d := Gather(u, qs, fetch);
      if p in u.screeners && d != map[] {
        var pd := fetch(p);
        assert Gather(u, ps, fetch) == Merge(d, p, pd);
        assert k != DataKey(p);
        SourceNoneFree(u, p, fetch);
        MergeGet(d, p, Source(u, p, fetch), pd, k);
      }
    }
  }

  /** A key other than `provider` and `p`'s data key keeps its value from the
      details gathered so far, and otherwise comes from `p`'s record. */
  lemma MergeGet(d: Record, p: string, src: Record, pd: Record, k: string)
    requires d != map[] && NoneFree(d) && src == Tag(pd, p) && NoneFree(src)
    requires k != ProviderKey && k != DataKey(p)
    ensures Get(Merge(d, p, pd), k) == if k in d then d[k] else Get(src, k)
  {
    var r := Merge(d, p, pd);
    if k in d {
    } else if k in r {
      assert r[k] == pd[k] && src[k] == pd[k];
    } else {
      assert k !in src;
    }
  }

  lemma AllKeysFromFirstHaving(u: Utils, ps: seq<string>, fetch: string -> Record)
    requires AllNoneFree(fetch)
    ensures forall k :: k != ProviderKey && (forall q :: q in ps ==> k != DataKey(q)) ==>
              Get(Gather(u, ps, fetch), k) == FirstHaving(u, ps, k, fetch)
  {
    forall k | k != ProviderKey && (forall q :: q in ps ==> k != DataKey(q))
      ensures Get(Gather(u, ps, fetch), k) == FirstHaving(u, ps, k, fetch)
    {
      FirstProviderWins(u, ps, k, fetch);
    }
  }

  /** Each registered provider after the base has its whole tagged record
      stored under `<provider>_data`, as of its last appearance in the list. */
  lemma LaterSourceStored(u: Utils, ps: seq<string>, fetch: string -> Record)
    requires ps != [] && ps[|ps| - 1] in u.screeners
    requires Gather(u, ps[..|ps| - 1], fetch) != map[]
    ensures var p := ps[|ps| - 1];
            var r := Gather(u, ps, fetch);
            DataKey(p) in r && r[DataKey(p)] == VMap(Source(u, p, fetch))
  {
  }

  /** Names that are not registered are skipped as if absent from the list. */
  lemma {:induction false} UnregisteredSkipped(u: Utils, ps: seq<string>, fetch: string -> Record)
    ensures Gather(u, ps, fetch) == Gather(u, Filter(ps, q => q in u.screeners), fetch)
  {
    if ps != [] {
      var qs := ps[..|ps| - 1];
      var p := ps[|ps| - 1];
      var f := q => q in u.screeners;
      assert ps == qs + [p];
      UnregisteredSkipped(u, qs, fetch);
      FilterAppend(qs, [p], f);
      assert Filter([p], f) == (if p in u.screeners then [p] else []) + Filter([], f);
      var fq := Filter(qs, f);
      if p in u.screeners {
        assert Filter(ps, f) == fq + [p];
        GatherSnoc(u, fq, p, fetch);
        GatherSnoc(u, qs, p, fetch);
      } else {
        assert Filter(ps, f) == fq;
      }
    }
  }

  /** One more registered provider merges its details into the rest. */
  lemma GatherSnoc(u: Utils, qs: seq<string>, p: string, fetch: string -> Record)
    requires p in u.screeners
    ensures Gather(u, qs + [p], fetch) == Merge(Gather(u, qs, fetch), p, fetch(p))
  {
    assert (qs + [p])[..|qs + [p]| - 1] == qs;
  }
}
