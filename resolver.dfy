/**
 * The cache spec resolver: which configuration governs the construction of
 * the native Guava cache behind a cache name.
 *
 * The external collaborators are parameters: the configuration provider is a
 * total function from cache name to an optional spec string, and Guava's
 * `CacheBuilder.from(spec).build()` is a function that either accepts a spec
 * string or rejects it with a cause (the exception it would throw).
 */
module CacheSpecResolver {
  import opened Wrappers

  /** How a native cache was built: from the shared default builder, or from a spec string. */
  datatype NativeCache = Default | FromSpec(spec: string)

  /** The warn and error events the manager logs; debug messages are not modelled. */
  datatype LogEvent = Warn(cacheName: string) | Error(cacheName: string, cause: string)

  /** What Guava's spec parser and builder do with a spec string. */
  datatype Parse = Accepted | Rejected(cause: string)

  type Parser = string -> Parse

  /** The configuration provider: `getSpecForCache`. */
  type Provider = string -> Option<string>

  /** A native cache together with the events logged while building it. */
  datatype Built = Built(cache: NativeCache, log: seq<LogEvent>)

  /** The outcome of a step that may throw, as `createCacheWithConfig` may. */
  datatype Attempt = Returned(built: Built) | Threw(cause: string)

  /** Guava's `Strings.isNullOrEmpty`; the provider never hands out null, so only "" is empty. */
  predicate IsNullOrEmpty(s: string)
  {
    |s| == 0
  }

  /** Builds a cache from the manager's single, option-free default builder. */
  function CreateDefaultNativeGuavaCache(name: string): (c: NativeCache)
    ensures c.Default?
  {
    Default
  }

  /**
   * Builds a cache from a present spec string: an empty string falls back
   * to the default with a warning; any other string goes to Guava's parser
   * unchanged, and a rejection escapes as a thrown exception.
   */
  function CreateCacheWithConfig(name: string, spec: string, parser: Parser): (a: Attempt)
    ensures a.Threw? <==> spec != "" && parser(spec).Rejected?
    ensures a.Threw? ==> a.cause == parser(spec).cause
    ensures spec == "" ==> a == Returned(Built(Default, [Warn(name)]))
    ensures spec != "" && parser(spec).Accepted? ==> a == Returned(Built(FromSpec(spec), []))
  {
    if IsNullOrEmpty(spec) then
      Returned(Built(CreateDefaultNativeGuavaCache(name), [Warn(name)]))
    else
      match parser(spec)
      case Accepted => Returned(Built(FromSpec(spec), []))
      case Rejected(cause) => Threw(cause)
  }

  /**
   * Resolves the provider's answer for `name` into a native cache: absent
   * means default; present goes through `CreateCacheWithConfig`, whose
   * exception is caught, logged as an error and replaced by the default.
   */
  function CreateNativeGuavaCache(name: string, spec: Option<string>, parser: Parser): (b: Built)
    // the four branches of the fallback policy
    ensures spec.None? ==> b == Built(Default, [])
    ensures spec == Some("") ==> b == Built(Default, [Warn(name)])
    ensures spec.Some? && spec.value != "" && parser(spec.value).Accepted? ==>
              b == Built(FromSpec(spec.value), [])
    ensures spec.Some? && spec.value != "" && parser(spec.value).Rejected? ==>
              b == Built(Default, [Error(name, parser(spec.value).cause)])
    // a spec string is used exactly when it is present, non-empty and accepted, and then unmodified
    ensures forall s :: b.cache == FromSpec(s) <==>
              spec == Some(s) && s != "" && parser(s).Accepted?
    // at most one event, always naming the cache
    ensures |b.log| <= 1
    ensures forall e | e in b.log :: e.cacheName == name
    // something is logged exactly when a spec is present but not used
    ensures b.log == [] <==> (spec.None? || b.cache.FromSpec?)
  {
    match spec
    case None => Built(CreateDefaultNativeGuavaCache(name), [])
    case Some(s) =>
      match CreateCacheWithConfig(name, s, parser)
      case Returned(built) => built
      case Threw(cause) =>
        Built(CreateDefaultNativeGuavaCache(name), [Error(name, cause)])
  }

  /** The four ways the provider's answer for a name can resolve: a flat reference for the try/catch structure. */
  datatype Resolution = NoSpec | EmptySpec | ValidSpec(spec: string) | InvalidSpec(cause: string)

  function Classify(spec: Option<string>, parser: Parser): Resolution
  {
    if spec.None? then NoSpec
    else if spec.value == "" then EmptySpec
    else if parser(spec.value).Accepted? then ValidSpec(spec.value)
    else InvalidSpec(parser(spec.value).cause)
  }

  /** Each terminal state decides the build and the logged event. */
  function Governs(name: string, r: Resolution): Built
  {
    match r
    case NoSpec => Built(Default, [])
    case EmptySpec => Built(Default, [Warn(name)])
    case ValidSpec(s) => Built(FromSpec(s), [])
    case InvalidSpec(cause) => Built(Default, [Error(name, cause)])
  }

  /** The try/catch structure of the manager agrees with the state machine on every input. */
  lemma ResolutionFollowsPolicy(name: string, spec: Option<string>, parser: Parser)
    ensures CreateNativeGuavaCache(name, spec, parser) == Governs(name, Classify(spec, parser))
  {
  }
}
