/**
 * `ConfigurableGuavaCacheManager`, the Spring cache manager that creates one
 * Guava-backed cache per name on first use, modelled sequentially: the
 * creation path runs without the lock and `cacheMap` is a plain map field.
 */
module CacheManager {
  import opened Wrappers
  import opened CacheSpecResolver
  import opened CacheRegistry

  /** Spring's `GuavaCache` adapter: a name paired with a native cache; its object identity is the cache's identity. */
  class GuavaCache {
    const name: string
    const native: NativeCache

    constructor (name: string, native: NativeCache)
      ensures this.name == name && this.native == native
    {
      this.name := name;
      this.native := native;
    }
  }

  /** The native cache behind each adapter of a table. */
  ghost function Natives(m: map<string, GuavaCache>): map<string, NativeCache>
  {
    map n | n in m :: m[n].native
  }

  lemma NativesStore(m: map<string, GuavaCache>, name: string, c: GuavaCache)
    ensures Natives(m[name := c]) == Natives(m)[name := c.native]
  {
  }

  class ConfigurableGuavaCacheManager {
    var cacheMap: map<string, GuavaCache>
    const provider: Provider
    const parser: Parser

    /** How many times the provider has been asked, per name. */
    ghost var providerCalls: multiset<string>
    /** The warn and error events logged so far, in order. */
    ghost var log: seq<LogEvent>

    /** The registry value this manager stands for. */
    ghost function State(): Registry
      reads this
    {
      Registry(Natives(cacheMap), providerCalls, log)
    }

    /** Every stored cache carries its own name (so distinct names hold distinct objects), and the registry invariant holds. */
    ghost predicate Valid()
      reads this
    {
      (forall n | n in cacheMap :: cacheMap[n].name == n) &&
      Consistent(State(), provider, parser)
    }

    constructor (provider: Provider, parser: Parser)
      ensures Valid()
      ensures this.provider == provider && this.parser == parser
      ensures cacheMap == map[] && State() == Empty()
    {
      this.provider := provider;
      this.parser := parser;
      cacheMap := map[];
      providerCalls := multiset{};
      log := [];
    }

    /** `cacheMap.get(name)`. */
    function Lookup(name: string): (found: Option<GuavaCache>)
      reads this
      ensures found.Some? <==> name in cacheMap
      ensures found.Some? ==> found.value == cacheMap[name]
    {
      if name in cacheMap then Some(cacheMap[name]) else None
    }

    /** The names of the caches created so far. */
    function GetCacheNames(): (names: set<string>)
      reads this
      ensures names == Names(State())
      ensures forall n :: n in names <==> Lookup(n).Some?
    {
      cacheMap.Keys
    }

    /**
     * Returns the cache for `name`, creating, storing and returning a new
     * one on the first request for that name.
     */
    method GetCache(name: string) returns (cache: GuavaCache)
      requires Valid()
      modifies this
      ensures Valid()
      ensures State() == Get(old(State()), name, provider, parser).0
      ensures cache.name == name && cache.native == Get(old(State()), name, provider, parser).1
      ensures name in cacheMap && cacheMap[name] == cache
      // hit: the stored object, nothing changed, provider not asked, nothing logged
      ensures name in old(cacheMap) ==>
                cache == old(cacheMap)[name] && cacheMap == old(cacheMap) &&
                providerCalls == old(providerCalls) && log == old(log)
      // miss: a new object stored under the name, every other entry as it was
      ensures name !in old(cacheMap) ==>
                fresh(cache) && cacheMap == old(cacheMap)[name := cache] &&
                providerCalls == old(providerCalls) + multiset{name}
      ensures name in GetCacheNames()
    {
      ghost var before := cacheMap;
      var found := Lookup(name);
      if found.None? {
        // under the lock: look again before creating
        found := Lookup(name);
        if found.None? {
          var spec := provider(name);
          providerCalls := providerCalls + multiset{name};
          var built := CreateNativeGuavaCache(name, spec, parser);
          log := log + built.log;
          var created := new GuavaCache(name, built.cache);
          cacheMap := cacheMap[name := created];
          found := Some(created);
          NativesStore(before, name, created);
        }
      }
      cache := found.value;
    }
  }

  /**
   * A fresh manager asked twice for the same name: both calls return the same
   * object, built by the fallback policy, the provider was asked once in
   * all, and the name is known.
   */
  method GetCacheTwice(provider: Provider, parser: Parser, name: string)
    returns (manager: ConfigurableGuavaCacheManager, first: GuavaCache, second: GuavaCache)
    ensures manager.Valid()
    ensures first == second && first.name == name
    ensures first.native == CreateNativeGuavaCache(name, provider(name), parser).cache
    ensures manager.providerCalls == multiset{name}
    ensures manager.log == CreateNativeGuavaCache(name, provider(name), parser).log
    ensures manager.GetCacheNames() == {name}
  {
    manager := new ConfigurableGuavaCacheManager(provider, parser);
    first := manager.GetCache(name);
    second := manager.GetCache(name);
  }
}
