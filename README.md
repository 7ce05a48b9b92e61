# Configurable Guava cache manager, modelled in Dafny

This project models `ConfigurableGuavaCacheManager`, a Spring `CacheManager` that hands out one Guava-backed cache per name. It creates each cache the first time its name is asked for. Each new cache is configured from an optional per-name spec string given by an external configuration provider. A missing, empty or unparsable spec falls back to Guava's default builder. The model has two parts:

- **The spec-resolution fallback policy** (`resolver.dfy`, module `CacheSpecResolver`). `createNativeGuavaCache`, `createCacheWithConfig` and `createDefaultNativeGuavaCache` become pure functions. `CreateDefaultNativeGuavaCache` returns only how the cache was built (`Default`). `CreateCacheWithConfig` returns an `Attempt`: either a built cache with the events logged, or `Threw(cause)` when `CacheBuilder.from` would throw. `CreateNativeGuavaCache` catches that outcome and always returns a built cache (`Default` or `FromSpec(s)`) together with the warn or error events it logs. A small state machine (`NoSpec | EmptySpec | ValidSpec | InvalidSpec`) is given as an independent reference, and the functions are proved to agree with it.
- **The registry table and `getCache`** (`manager.dfy`, module `CacheManager`; `registry.dfy`, module `CacheRegistry`). The manager is a class. Its `cacheMap` field is a map from name to a `GuavaCache` object, and the object's identity is the cache instance's identity. `getCache` reads the field, reads it again on the creating path and then stores the new entry, as the source does. Two ghost fields record how often the provider was asked for each name and the warn/error events logged so far. `CacheRegistry` describes the same state as a value: `Get` is one call, and `Replay` is any sequence of calls. It proves the registry's invariants over every sequence: the table only grows, entries are never replaced, and the provider is asked exactly once per name.

The collaborators are parameters. The configuration provider (`getSpecForCache`) is a total function from name to `Option<string>`. Guava's `CacheBuilder.from(spec).build()` is a function returning `Accepted` or `Rejected(cause)`. Only the zero-length string counts as empty (`Strings.isNullOrEmpty`); a whitespace-only spec string is handed to the parser.

## Model

| member | source | states |
|---|---|---|
| CacheSpecResolver.CreateCacheWithConfig | src/main/java/de/kaffeekrone/spring/ConfigurableGuavaCacheManager.java:46-54 | an empty spec gives the default cache with one warning naming the cache; a non-empty spec the parser accepts gives a cache built from exactly that string; it throws exactly when a non-empty spec is rejected, carrying the parser's cause |
| CacheSpecResolver.CreateNativeGuavaCache | src/main/java/de/kaffeekrone/spring/ConfigurableGuavaCacheManager.java:31-44 | (the default path is `CreateDefaultNativeGuavaCache`, lines 67-70) absent spec gives the default cache with nothing logged; empty gives default plus one warning; accepted gives `FromSpec` of the unmodified string; rejected gives default plus one error naming the cache and the cause, never an escaping failure; a spec is used if and only if it is present, non-empty and accepted; at most one event is logged, it names the cache, and something is logged exactly when a present spec is not used |
| CacheSpecResolver.ResolutionFollowsPolicy | src/main/java/de/kaffeekrone/spring/ConfigurableGuavaCacheManager.java:31-54 | the try/catch structure gives, for every input, the same build and log as the four-state resolution policy (no spec, empty, valid, invalid) |
| CacheRegistry.Get | src/main/java/de/kaffeekrone/spring/ConfigurableGuavaCacheManager.java:73-85 | the returned cache is the one stored under the name; a hit changes nothing and does not ask the provider; a miss adds exactly one entry keyed by the name, leaves every other entry as it was, counts one provider call for the name and appends the build's events; the registry invariant (one provider call per stored name, none for others, every entry built by the policy) is preserved |
| CacheRegistry.ReplayNames | src/main/java/de/kaffeekrone/spring/ConfigurableGuavaCacheManager.java:57-58 | after any sequence of `getCache` calls the known names are exactly the earlier names plus the names asked for |
| CacheRegistry.ReplayKeepsEntries | src/main/java/de/kaffeekrone/spring/ConfigurableGuavaCacheManager.java:77-81 | a stored entry is never removed or replaced by later calls |
| CacheRegistry.ReplayExtendsLog | src/main/java/de/kaffeekrone/spring/ConfigurableGuavaCacheManager.java:36-40 | later calls only append to the warn/error log |
| CacheRegistry.ReplayConsistent | src/main/java/de/kaffeekrone/spring/ConfigurableGuavaCacheManager.java:74-81 | every sequence of calls keeps the registry invariant |
| CacheRegistry.ConsultedOnce | src/main/java/de/kaffeekrone/spring/ConfigurableGuavaCacheManager.java:33 | from a fresh manager, after any sequence of calls, the provider was asked exactly once for each name asked for and never for any other name, and every cache follows the fallback policy |
| CacheRegistry.LaterGetsAgree | src/main/java/de/kaffeekrone/spring/ConfigurableGuavaCacheManager.java:74-84 | once a cache was returned for a name, any later call for that name, after any other calls, returns the same cache and changes nothing |
| CacheManager.GuavaCache.constructor | src/main/java/de/kaffeekrone/spring/ConfigurableGuavaCacheManager.java:79 | the Spring adapter pairs the cache name with the native cache |
| CacheManager.ConfigurableGuavaCacheManager.constructor | src/main/java/de/kaffeekrone/spring/ConfigurableGuavaCacheManager.java:22-29 | a new manager keeps the given provider and parser, satisfies the registry invariant, and stands for `CacheRegistry.Empty()`: an empty table, no provider calls and no log |
| CacheManager.ConfigurableGuavaCacheManager.GetCacheNames | src/main/java/de/kaffeekrone/spring/ConfigurableGuavaCacheManager.java:56-59 | the names returned are exactly the table's keys, that is, the names with a stored cache |
| CacheManager.ConfigurableGuavaCacheManager.GetCache | src/main/java/de/kaffeekrone/spring/ConfigurableGuavaCacheManager.java:72-85 | the new state is `Get` of the old one; the first read of `cacheMap` (`Lookup`) finds the stored object exactly on a hit; it returns a non-null cache carrying the name; a hit returns the stored object and leaves the table, the provider-call count and the log unchanged; a miss stores a fresh object under the name, keeps every other entry, and counts exactly one provider call for the name; afterwards the name is among `GetCacheNames()` |
| CacheManager.GetCacheTwice | src/test/java/de/kaffeekrone/spring/ConfigurableGuavaCacheManagerTest.java:51-58 | a fresh manager asked twice for a name returns the same object both times, built by the fallback policy; the provider was asked once in all, the log holds exactly that build's events, and the known names are exactly that name |

## Left out

- Concurrency: the `ConcurrentHashMap` and the `synchronized (cacheMap)` double-checked locking are not modelled. `getCache` runs sequentially; its second lookup stands for the re-check under the lock and can never hit. The exactly-once guarantee under racing first calls is therefore not proved.
- Guava's spec grammar and cache engine (eviction, expiry, sizing): `CacheBuilder.from(spec).build()` is the `Parser` parameter. Any exception it throws is a `Rejected(cause)`. A built native cache is only a record of how it was built; its identity is that of its `GuavaCache` adapter object.
- The Spring `GuavaCache` adapter only pairs a name with a native cache. Its get/put/evict operations are not modelled.
- SLF4J logging: only the warn and error events are kept, as a ghost log. The debug messages and the exception's stack trace are left out.
- The configuration provider is a total function. The source's interface is not part of this model. Since Guava's `Optional` cannot hold null, the null half of `Strings.isNullOrEmpty` never arises.
- GetCache: cannot fail, unlike the source. The provider is called at ConfigurableGuavaCacheManager.java:33, outside the `try` at lines 35-40. A provider that throws, or that returns a null `Optional` (a NullPointerException at line 34), makes `getCache` throw, and no entry is stored. Only failures of the spec parser `CacheBuilder.from(...).build()` are absorbed. The model has no such provider failure.
- `getCacheNames` returns the current key set as a value, not a live unmodifiable view.
- `getCache(null)` is not modelled, because Dafny strings are never null; in the source, `ConcurrentHashMap` would throw on it.
- The Mockito/TestNG test harness is not modelled; its assertions are restated by `GetCacheTwice`.
