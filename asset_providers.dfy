/**
 * `AssetProviderManager`: a memo of storage providers keyed by provider name
 * and multipart threshold. The factory that builds a provider is foreign code;
 * it is modelled as a total function from configuration to an optional
 * provider, `None` standing for `null`.
 */
module AssetProviders {
  import opened Wrappers
  import opened JsValues

  datatype ProviderKind = R2 | Bunny | S3 | Gcs

  /** The provider's name as written in the configuration. */
  function KindName(k: ProviderKind): (r: string)
    ensures r != "" && '-' !in r
  {
    match k
    case R2 => "R2"
    case Bunny => "BUNNY"
    case S3 => "S3"
    case Gcs => "GCS"
  }

  /** `multipartThreshold` is an optional big integer. */
  datatype ProviderConfig = ProviderConfig(provider: ProviderKind, multipartThreshold: Option<int>)

  /** An opaque provider object; only its identity matters to the memo. */
  datatype Provider = Provider(id: nat)

  type Factory = ProviderConfig -> Option<Provider>

  /** `${config.multipartThreshold || 'default'}`: a missing or zero threshold is falsy and reads `default`. */
  function ThresholdTag(t: Option<int>): (r: string)
    ensures r == "default" <==> t.None? || t.value == 0
  {
    if t.Some? && t.value != 0 then
      var d := DecimalString(t.value);
      assert d[0] == '-' || '0' <= d[0] <= '9';
      assert d[0] != "default"[0];
      d
    else "default"
  }

  /** The memo key `provider-threshold`. */
  function CacheKey(config: ProviderConfig): string {
    KindName(config.provider) + "-" + ThresholdTag(config.multipartThreshold)
  }

  /** `s.split('-')[0]`: the text before the first dash. */
  function BeforeDash(s: string): (r: string)
    ensures |r| <= |s| && r == s[..|r|] && '-' !in r
  {
    if s == [] || s[0] == '-' then "" else [s[0]] + BeforeDash(s[1..])
  }

  lemma {:induction false} BeforeDashOf(name: string, rest: string)
    requires '-' !in name
    ensures BeforeDash(name + "-" + rest) == name
  {
    if name != [] {
      assert (name + "-" + rest)[1..] == name[1..] + "-" + rest;
      BeforeDashOf(name[1..], rest);
    }
  }

  /** The key starts with the provider's name, so two providers never share a memo entry. */
  lemma {:induction false} KeyNamesProvider(c1: ProviderConfig, c2: ProviderConfig)
    ensures BeforeDash(CacheKey(c1)) == KindName(c1.provider)
    ensures c1.provider != c2.provider ==> CacheKey(c1) != CacheKey(c2)
  {
    BeforeDashOf(KindName(c1.provider), ThresholdTag(c1.multipartThreshold));
    BeforeDashOf(KindName(c2.provider), ThresholdTag(c2.multipartThreshold));
  }

  /** A zero threshold and a missing one share the `default` entry. */
  lemma {:induction false} ZeroThresholdIsDefault(k: ProviderKind)
    ensures CacheKey(ProviderConfig(k, Some(0))) == CacheKey(ProviderConfig(k, None)) == KindName(k) + "-default"
  {
  }

  /**
   * `getProvider` as a function of the memo and the factory: the memoized
   * provider if there is one; otherwise `null` without a factory; otherwise
   * the factory's result, remembered only when it is not `null`.
   */
  function GetOrCreate(providers: map<string, Provider>, factory: Option<Factory>, config: ProviderConfig): (res: (Option<Provider>, map<string, Provider>))
    ensures CacheKey(config) in providers ==> res == (Some(providers[CacheKey(config)]), providers)
    ensures CacheKey(config) !in providers && factory.None? ==> res == (None, providers)
    ensures CacheKey(config) !in providers && factory.Some? ==>
      res.0 == factory.value(config) &&
      res.1 == if res.0.Some? then providers[CacheKey(config) := res.0.value] else providers
  {
    var key := CacheKey(config);
    if key in providers then (Some(providers[key]), providers)
    else if factory.None? then (None, providers)
    else
      var p := factory.value(config);
      if p.Some? then (p, providers[key := p.value]) else (p, providers)
  }

  /** A provider once returned is returned again, from the memo, and the memo does not change. */
  lemma {:induction false} GetOrCreateMemoized(providers: map<string, Provider>, factory: Option<Factory>, config: ProviderConfig, later: Option<Factory>)
    requires GetOrCreate(providers, factory, config).0.Some?
    ensures var (p, m) := GetOrCreate(providers, factory, config);
      GetOrCreate(m, later, config) == (p, m)
  {
  }

  /** The memo only grows, and only by the requested key. */
  lemma {:induction false} GetOrCreateOnlyAddsKey(providers: map<string, Provider>, factory: Option<Factory>, config: ProviderConfig)
    ensures var m := GetOrCreate(providers, factory, config).1;
      providers.Keys <= m.Keys <= providers.Keys + {CacheKey(config)} &&
      forall k :: k in providers ==> m[k] == providers[k]
  {
  }

  class AssetProviderManager {
    var providers: map<string, Provider>
    var factory: Option<Factory>

    /** A fresh manager has no memo and no factory. */
    constructor()
      ensures providers == map[] && factory == None
    {
      providers := map[];
      factory := None;
    }

    /** `setFactory(factory)`: the memo is kept. */
    method SetFactory(f: Factory)
      modifies this
      ensures factory == Some(f) && providers == old(providers)
    {
      factory := Some(f);
    }

    /** `getProvider(config)` */
    method GetProvider(config: ProviderConfig) returns (r: Option<Provider>)
      modifies this
      ensures (r, providers) == GetOrCreate(old(providers), old(factory), config)
      ensures factory == old(factory)
    {
      var key := CacheKey(config);
      if key in providers {
        return Some(providers[key]);
      }
      if factory.None? {
        return None;
      }
      r := factory.value(config);
      if r.Some? {
        providers := providers[key := r.value];
      }
    }

    /** `clearCache()`: forgets every provider, keeps the factory. */
    method ClearCache()
      modifies this
      ensures providers == map[] && factory == old(factory)
    {
      providers := map[];
    }
  }
}
