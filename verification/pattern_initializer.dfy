/**
 * The factory that turns a regular expression and its flags into a compiled
 * pattern for the `@Pattern` constraint: a stateless variant that compiles on
 * every request, and a caching variant that memoises compiled patterns under
 * the key (pattern, flags) until it is closed. Regex compilation itself is the
 * parameter `compile`, an arbitrary function: only how the cache uses it is modelled.
 */
module PatternInitializer {
  import opened Optional

  /** Java's `int`, the type of the flags argument. */
  newtype Int32 = x: int | -0x8000_0000 <= x < 0x8000_0000

  /** The cache key: the whole (pattern, flags) pair. */
  datatype PatternKey = PatternKey(pattern: string, flags: Int32)

  /** The two implementations of the interface: `Simple` holds no state, `Caching` holds its map. */
  datatype Initializer<P> = Simple | Caching(cache: map<PatternKey, P>)

  /** The cache invariant: every cached pattern is what compiling its key yields. */
  ghost predicate CacheConsistent<P>(init: Initializer<P>, compile: (string, Int32) -> P)
  {
    init.Caching? ==> forall k :: k in init.cache ==> init.cache[k] == compile(k.pattern, k.flags)
  }

  /** `of(pattern, flags)`: the compiled pattern and the initializer's state afterwards.
      The caching variant computes only when the key is absent and then stores the result. */
  function Of<P>(init: Initializer<P>, compile: (string, Int32) -> P, pattern: string, flags: Int32): (r: (P, Initializer<P>))
    ensures CacheConsistent(init, compile) ==> r.0 == compile(pattern, flags) && CacheConsistent(r.1, compile)
    ensures init.Simple? ==> r.1 == Simple
    ensures init.Caching? ==>
              && r.1.Caching?
              && r.1.cache.Keys == init.cache.Keys + {PatternKey(pattern, flags)}
              && r.1.cache[PatternKey(pattern, flags)] == r.0
              && forall k :: k in init.cache ==> r.1.cache[k] == init.cache[k]
    ensures init.Caching? && PatternKey(pattern, flags) in init.cache ==>
              r == (init.cache[PatternKey(pattern, flags)], init)
  {
    match init
    case Simple => (compile(pattern, flags), Simple)
    case Caching(cache) =>
      var key := PatternKey(pattern, flags);
      if key in cache then (cache[key], init)
      else
        var p := compile(pattern, flags);
        (p, Caching(cache[key := p]))
  }

  /** `close()`: the caching variant empties its cache; the interface's default does nothing. */
  function Close<P>(init: Initializer<P>): (r: Initializer<P>)
    ensures init.Simple? ==> r == init
    ensures init.Caching? ==> r.Caching? && r.cache == map[]
  {
    match init
    case Simple => Simple
    case Caching(_) => Caching(map[])
  }

  /** The caching variant answers exactly what the stateless one does, as long as its invariant holds. */
  lemma CachingAgreesWithSimple<P>(cache: map<PatternKey, P>, compile: (string, Int32) -> P, pattern: string, flags: Int32)
    requires CacheConsistent(Caching(cache), compile)
    ensures Of(Caching(cache), compile, pattern, flags).0 == Of(Simple, compile, pattern, flags).0
  {
  }

  /** A repeated request is served from the cache: the state does not change, and the answer does
      not depend on `compile` at all, so nothing is recompiled. */
  lemma RepeatedOfHitsCache<P>(init: Initializer<P>, compile: (string, Int32) -> P, other: (string, Int32) -> P,
                               pattern: string, flags: Int32)
    requires init.Caching?
    ensures var first := Of(init, compile, pattern, flags);
            Of(first.1, other, pattern, flags) == (first.0, first.1)
  {
  }

  /** The key is the whole pair: the same pattern under different flags takes a second entry. */
  lemma FlagsDistinguishEntries<P>(compile: (string, Int32) -> P, pattern: string, flags1: Int32, flags2: Int32)
    requires flags1 != flags2
    ensures var first := Of(Caching(map[]), compile, pattern, flags1);
            var second := Of(first.1, compile, pattern, flags2);
            && second.1.Caching?
            && second.1.cache.Keys == {PatternKey(pattern, flags1), PatternKey(pattern, flags2)}
            && |second.1.cache| == 2
            && second.0 == compile(pattern, flags2)
  {
    var first := Of(Caching(map[]), compile, pattern, flags1);
    var second := Of(first.1, compile, pattern, flags2);
    assert PatternKey(pattern, flags1) != PatternKey(pattern, flags2);
    assert |{PatternKey(pattern, flags1), PatternKey(pattern, flags2)}| == 2;
  }

  /** After `close`, `of` still answers `compile` and repopulates just the requested key. */
  lemma OfAfterClose<P>(init: Initializer<P>, compile: (string, Int32) -> P, pattern: string, flags: Int32)
    requires init.Caching?
    ensures Of(Close(init), compile, pattern, flags)
         == (compile(pattern, flags), Caching(map[PatternKey(pattern, flags) := compile(pattern, flags)]))
  {
  }

  /** A call a client makes on an initializer. */
  datatype Call = OfCall(pattern: string, flags: Int32) | CloseCall

  /** One call: `of` yields a pattern, `close` yields nothing. */
  function Step<P>(init: Initializer<P>, compile: (string, Int32) -> P, call: Call): (Option<P>, Initializer<P>)
  {
    match call
    case OfCall(pattern, flags) =>
      var r := Of(init, compile, pattern, flags);
      (Some(r.0), r.1)
    case CloseCall => (None, Close(init))
  }

  /** A history of calls, one answer per call, and the final state. */
  function Run<P>(init: Initializer<P>, compile: (string, Int32) -> P, calls: seq<Call>): (r: (seq<Option<P>>, Initializer<P>))
    ensures |r.0| == |calls|
    decreases |calls|
  {
    if calls == [] then ([], init)
    else
      var before := Run(init, compile, calls[..|calls| - 1]);
      var step := Step(before.1, compile, calls[|calls| - 1]);
      (before.0 + [step.0], step.1)
  }

  /** The keys requested since the last `close` of a history. */
  function RequestedSinceClose(calls: seq<Call>): set<PatternKey>
  {
    if calls == [] then {}
    else
      match calls[|calls| - 1]
      case CloseCall => {}
      case OfCall(pattern, flags) => RequestedSinceClose(calls[..|calls| - 1]) + {PatternKey(pattern, flags)}
  }

  /** Over any history starting from a fresh caching initializer: every `of` answers what `compile`
      yields, the cache invariant holds throughout, and the cache holds exactly the keys requested
      since the last `close`. */
  lemma {:induction false} RunKeepsCacheConsistent<P>(compile: (string, Int32) -> P, calls: seq<Call>)
    ensures var r := Run(Caching(map[]), compile, calls);
            && CacheConsistent(r.1, compile)
            && r.1.Caching?
            && r.1.cache.Keys == RequestedSinceClose(calls)
            && forall i :: 0 <= i < |calls| && calls[i].OfCall? ==>
                 r.0[i] == Some(compile(calls[i].pattern, calls[i].flags))
    decreases |calls|
  {
    if calls != [] {
      var prefix := calls[..|calls| - 1];
      RunKeepsCacheConsistent(compile, prefix);
      var before := Run(Caching(map[]), compile, prefix);
      var r := Run(Caching(map[]), compile, calls);
      forall i | 0 <= i < |calls| && calls[i].OfCall?
        ensures r.0[i] == Some(compile(calls[i].pattern, calls[i].flags))
      {
        if i < |calls| - 1 {
          assert calls[i] == prefix[i];
          assert r.0[i] == before.0[i];
        }
      }
    }
  }
}
