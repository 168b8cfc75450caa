/** The screener factory: `get_screener` builds one screener from a registry
    name (matched case-insensitively), and `get_screener_utils` builds a
    registry of every screener whose construction succeeds. `envToken` is the
    EODHD_API_TOKEN environment variable. */
module Factory {
  import opened Values
  import Finology
  import Eodhd
  import opened ScreenerUtils

  /** The keys of `SCREENERS`, in declaration order. */
  const Registry: seq<string> := ["finology", "eodhd"]

  /** `get_screener(provider, **kwargs)`: `None` for a name outside the
      registry and when the constructor raises. */
  function GetScreener(provider: string, kwargs: Record, envToken: Option<string>): (r: Option<Screener>)
    ensures Lower(provider) !in Registry ==> r == None
    ensures r.Some? && r.value.FinologyScreener? ==>
              Lower(provider) == "finology" && Finology.New(kwargs) == Some(r.value.finology)
    ensures r.Some? && r.value.EodhdScreener? ==>
              Lower(provider) == "eodhd" && Eodhd.New(kwargs, envToken) == Some(r.value.eodhd)
    ensures Lower(provider) == "finology" && Finology.New(kwargs).Some? ==> r.Some?
    ensures Lower(provider) == "eodhd" && Eodhd.New(kwargs, envToken).Some? ==> r.Some?
  {
    var name := Lower(provider);
    if name == "finology" then
      match Finology.New(kwargs)
      case None => None
      case Some(c) => Some(FinologyScreener(c))
    else if name == "eodhd" then
      match Eodhd.New(kwargs, envToken)
      case None => None
      case Some(c) => Some(EodhdScreener(c))
    else None
  }

  /** The provider name is matched case-insensitively. */
  lemma GetScreenerIgnoresCase(provider: string, kwargs: Record, envToken: Option<string>)
    ensures GetScreener(provider, kwargs, envToken) == GetScreener(Lower(provider), kwargs, envToken)
  {
    LowerIdempotent(provider);
  }

  /** A Finology screener cannot be built without an `api_key`. */
  lemma FinologyNeedsApiKey(provider: string, kwargs: Record, envToken: Option<string>)
    requires "api_key" !in kwargs
    ensures GetScreener(provider, kwargs, envToken).None? || GetScreener(provider, kwargs, envToken).value.EodhdScreener?
  {
  }

  /** An EODHD screener is built without configuration exactly when the
      environment supplies a non-empty token. */
  lemma EodhdFromEnvironment(provider: string, envToken: Option<string>)
    requires Lower(provider) == "eodhd"
    ensures GetScreener(provider, map[], envToken).Some? <==> envToken.Some? && envToken.value != ""
  {
  }

  /** The configuration given for `provider`, empty when there is none. */
  function ConfigFor(configs: map<string, Record>, provider: string): Record {
    if provider in configs then configs[provider] else map[]
  }

  /** A configuration that `get_screener(provider, **config)` cannot even be
      called with: its `provider` entry clashes with the positional argument,
      and the `TypeError` raised at the call is not caught. */
  predicate Clashes(config: Record) {
    "provider" in config
  }

  /** The loop of `get_screener_utils`, `None` when it raises: each name whose
      screener can be built is registered under the caller's spelling, in
      first-success order; a configuration with a `provider` entry raises. */
  function Build(ps: seq<string>, configs: map<string, Record>, envToken: Option<string>): (u: Option<Utils>)
    ensures u.None? <==> exists p :: p in ps && Clashes(ConfigFor(configs, p))
    ensures u.Some? ==> Valid(u.value)
    ensures u.Some? ==> forall n :: n in u.value.screeners <==> n in ps && GetScreener(n, ConfigFor(configs, n), envToken).Some?
    ensures u.Some? ==> forall n :: n in u.value.screeners ==> Some(u.value.screeners[n]) == GetScreener(n, ConfigFor(configs, n), envToken)
  {
    if ps == [] then Some(Empty)
    else
      var prev := Build(ps[..|ps| - 1], configs, envToken);
      var p := ps[|ps| - 1];
      assert ps == ps[..|ps| - 1] + [p];
      if prev.None? || Clashes(ConfigFor(configs, p)) then None
      else
        match GetScreener(p, ConfigFor(configs, p), envToken)
        case None => prev
        case Some(s) => Some(AddScreener(prev.value, p, s))
  }

  /** The provider names `get_screener_utils` walks: the given list, or the
      whole registry when it is missing or empty. */
  function ProviderList(providers: Option<seq<string>>): (ps: seq<string>)
    ensures providers.Some? && providers.value != [] ==> ps == providers.value
    ensures providers.None? || providers.value == [] ==> ps == Registry
  {
    if providers.None? || providers.value == [] then Registry else providers.value
  }

  /** `get_screener_utils(providers, screener_configs)`, `None` when it raises;
      missing configurations are empty. Without configurations nothing can
      raise, and without a provider list only registry names are registered. */
  function GetScreenerUtils(providers: Option<seq<string>>, configs: Option<map<string, Record>>,
                            envToken: Option<string>): (u: Option<Utils>)
    ensures configs.None? ==> u.Some?
    ensures u.Some? && (providers.None? || providers.value == []) ==>
              forall n :: n in u.value.screeners ==> n in Registry
    ensures u.Some? ==> forall n :: n in u.value.screeners ==> n in ProviderList(providers)
    ensures u.None? <==> exists p :: p in ProviderList(providers) && configs.Some? && Clashes(ConfigFor(configs.value, p))
  {
    Build(ProviderList(providers), if configs.None? then map[] else configs.value, envToken)
  }

  /** The registered names keep the order of the provider list. */
  lemma {:induction false} BuildKeepsOrder(ps: seq<string>, configs: map<string, Record>, envToken: Option<string>)
    ensures var u := Build(ps, configs, envToken);
            u.Some? ==> IsSubsequence(u.value.names, ps)
  {
    if ps != [] {
      var qs := ps[..|ps| - 1];
      var p := ps[|ps| - 1];
      assert ps == qs + [p];
      BuildKeepsOrder(qs, configs, envToken);
      var prev := Build(qs, configs, envToken);
      if prev.Some? {
        SubsequenceSnoc(prev.value.names, qs, p);
      }
    }
  }

  /** With no arguments only EODHD can be registered (Finology needs an API
      key), and it is exactly when the environment holds a token. */
  lemma DefaultUtils(envToken: Option<string>)
    ensures var u := GetScreenerUtils(None, None, envToken);
            u.Some? && u.value.names == (if envToken.Some? && envToken.value != "" then ["eodhd"] else [])
  {
    var none: map<string, Record> := map[];
    assert GetScreenerUtils(None, None, envToken) == Build(Registry, none, envToken);
    RegistryBuild(envToken);
  }

  /** Building the whole registry without configurations: Finology is never
      built, and EODHD is built exactly when the environment holds a token. */
  lemma RegistryBuild(envToken: Option<string>)
    ensures var u := Build(Registry, map[], envToken);
            u.Some? && u.value.names == (if envToken.Some? && envToken.value != "" then ["eodhd"] else [])
  {
    var none: map<string, Record> := map[];
    FinologyAloneBuildsNothing(envToken);
    assert Registry[..1] == ["finology"];
    assert !Clashes(ConfigFor(none, "eodhd"));
    BareEodhd(envToken);
  }

  lemma BareEodhd(envToken: Option<string>)
    ensures GetScreener("eodhd", ConfigFor(map[], "eodhd"), envToken).Some? <==> envToken.Some? && envToken.value != ""
  {
    LowerOfLowerCase("eodhd");
    assert ConfigFor(map[], "eodhd") == map[];
    EodhdFromEnvironment("eodhd", envToken);
  }

  lemma BareFinology(envToken: Option<string>)
    ensures GetScreener("finology", ConfigFor(map[], "finology"), envToken) == None
  {
    LowerOfLowerCase("finology");
    assert ConfigFor(map[], "finology") == map[];
  }

  lemma FinologyAloneBuildsNothing(envToken: Option<string>)
    ensures Build(["finology"], map[], envToken) == Some(Empty)
  {
    BareFinology(envToken);
    assert ["finology"][..0] == [];
    assert !Clashes(ConfigFor(map[], "finology"));
  }
}
