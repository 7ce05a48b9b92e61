/**
 * The registry seen as a value: the table from cache name to the native
 * cache behind it, the ghost count of provider calls per name, and the log of
 * warn and error events. `Get` is one sequential `getCache` call on this
 * value; the class in CacheManager is proved to follow it step by step.
 */
module CacheRegistry {
  import opened Wrappers
  import opened CacheSpecResolver

  datatype Registry = Registry(table: map<string, NativeCache>, calls: multiset<string>, log: seq<LogEvent>)

  /** A fresh manager: nothing created, nobody asked, nothing logged. */
  function Empty(): (r: Registry)
    ensures r.table == map[] && r.calls == multiset{} && r.log == []
  {
    Registry(map[], multiset{}, [])
  }

  /**
   * The registry invariant: the provider has been asked exactly once for
   * every name in the table and never for any other, and every entry was
   * built by the fallback policy from the provider's answer for its name.
   */
  ghost predicate Consistent(r: Registry, provider: Provider, parser: Parser)
  {
    r.calls == multiset(r.table.Keys) &&
    forall n | n in r.table :: r.table[n] == CreateNativeGuavaCache(n, provider(n), parser).cache
  }

  /** One `getCache(name)`: a hit returns the stored cache; a miss asks the provider once, builds and stores. */
  function Get(r: Registry, name: string, provider: Provider, parser: Parser): (res: (Registry, NativeCache))
    // the returned cache is the one stored under the name
    ensures name in res.0.table && res.0.table[name] == res.1
    // a hit changes nothing and does not ask the provider
    ensures name in r.table ==> res.0 == r && res.1 == r.table[name]
    // a miss adds exactly one entry, counts one provider call for the name and appends the build's events
    ensures name !in r.table ==>
              var b := CreateNativeGuavaCache(name, provider(name), parser);
              res.1 == b.cache &&
              res.0.table == r.table[name := b.cache] &&
              res.0.calls == r.calls + multiset{name} &&
              res.0.log == r.log + b.log
    // the invariant is preserved
    ensures Consistent(r, provider, parser) ==> Consistent(res.0, provider, parser)
  {
    if name in r.table then
      (r, r.table[name])
    else
      var b := CreateNativeGuavaCache(name, provider(name), parser);
      (Registry(r.table[name := b.cache], r.calls + multiset{name}, r.log + b.log), b.cache)
  }

  /** The names known to the registry, `getCacheNames()`. */
  function Names(r: Registry): set<string>
  {
    r.table.Keys
  }

  /** The registry after `getCache` has been called on each of `names` in order. */
  function Replay(r: Registry, names: seq<string>, provider: Provider, parser: Parser): Registry
    decreases |names|
  {
    if names == [] then r
    else Replay(Get(r, names[0], provider, parser).0, names[1..], provider, parser)
  }

  /** After the calls, the known names are exactly the old ones plus those asked for. */
  lemma {:induction false} ReplayNames(r: Registry, names: seq<string>, provider: Provider, parser: Parser)
    ensures Names(Replay(r, names, provider, parser)) == Names(r) + set n | n in names
    decreases |names|
  {
    if names != [] {
      ReplayNames(Get(r, names[0], provider, parser).0, names[1..], provider, parser);
      assert (set n | n in names) == {names[0]} + set n | n in names[1..];
    }
  }

  /** An entry, once stored, is never replaced or removed. */
  lemma {:induction false} ReplayKeepsEntries(r: Registry, names: seq<string>, provider: Provider, parser: Parser, n: string)
    requires n in r.table
    ensures n in Replay(r, names, provider, parser).table
    ensures Replay(r, names, provider, parser).table[n] == r.table[n]
    decreases |names|
  {
    if names != [] {
      ReplayKeepsEntries(Get(r, names[0], provider, parser).0, names[1..], provider, parser, n);
    }
  }

  /** The log only grows: earlier events are kept as a prefix. */
  lemma {:induction false} ReplayExtendsLog(r: Registry, names: seq<string>, provider: Provider, parser: Parser)
    ensures r.log <= Replay(r, names, provider, parser).log
    decreases |names|
  {
    if names != [] {
      ReplayExtendsLog(Get(r, names[0], provider, parser).0, names[1..], provider, parser);
    }
  }

  /** Any sequence of calls keeps the registry invariant. */
  lemma {:induction false} ReplayConsistent(r: Registry, names: seq<string>, provider: Provider, parser: Parser)
    requires Consistent(r, provider, parser)
    ensures Consistent(Replay(r, names, provider, parser), provider, parser)
    decreases |names|
  {
    if names != [] {
      ReplayConsistent(Get(r, names[0], provider, parser).0, names[1..], provider, parser);
    }
  }

  /**
   * Starting from a fresh manager, whatever the sequence of calls, the
   * provider has been asked exactly once for each name asked for and never
   * for any other, and every cache follows the fallback policy.
   */
  lemma ConsultedOnce(names: seq<string>, provider: Provider, parser: Parser)
    ensures var r := Replay(Empty(), names, provider, parser);
            (forall n :: r.calls[n] == if n in names then 1 else 0) &&
            (forall n | n in r.table :: r.table[n] == CreateNativeGuavaCache(n, provider(n), parser).cache)
  {
    var r := Replay(Empty(), names, provider, parser);
    ReplayConsistent(Empty(), names, provider, parser);
    ReplayNames(Empty(), names, provider, parser);
    forall n ensures r.calls[n] == if n in names then 1 else 0 {
      assert n in r.table.Keys <==> n in names;
    }
  }

  /** Once `getCache(name)` has returned a cache, every later call for the name returns that same cache. */
  lemma LaterGetsAgree(r: Registry, name: string, names: seq<string>, provider: Provider, parser: Parser)
    ensures var (r1, c) := Get(r, name, provider, parser);
            var later := Get(Replay(r1, names, provider, parser), name, provider, parser);
            later.1 == c && later.0 == Replay(r1, names, provider, parser)
  {
    var (r1, c) := Get(r, name, provider, parser);
    ReplayKeepsEntries(r1, names, provider, parser, name);
  }
}
