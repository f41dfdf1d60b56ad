/** The request-performance middleware: each request is mapped to an
    endpoint key, and a latency sample is appended to that endpoint's
    history, which is trimmed to its most recent entries. */
module Middleware {

  datatype Option<T> = None | Some(value: T)

  /** What resolving a request path yields: the name of the view function
      and the route pattern that matched. */
  datatype ResolverMatch = ResolverMatch(funcName: string, route: string)

  /** A request as the middleware sees it. `resolverMatch` is the match the
      framework attached to the request or, failing that, the result of
      resolving its path; `None` stands for a path that does not resolve.
      The path itself is read only by the resolver, so it is not a field. */
  datatype Request = Request(httpMethod: string, resolverMatch: Option<ResolverMatch>)

  /** One latency sample; times are integers in a common unit. */
  datatype Sample = Sample(totalTime: int, dbTime: int, computeTime: int, timestamp: int)

  /** Methods that are never measured. */
  const SkipMethods: set<string> := {"HEAD", "OPTIONS"}

  /** The view whose routes all share one endpoint key. */
  const FeedView := "feed"

  /** The number of samples kept per endpoint. */
  const MaxSamples := 50

  function Min(a: int, b: int): int
  {
    if a < b then a else b
  }

  /** The endpoint key of a request, or `None` when it is not measured:
      skipped methods and unresolvable paths have no key. */
  function PatternName(request: Request): (endpoint: Option<string>)
    ensures endpoint.None? <==> request.httpMethod in SkipMethods || request.resolverMatch.None?
  {
    if request.httpMethod in SkipMethods then None
    else match request.resolverMatch
      case None => None
      case Some(m) =>
        if m.funcName == FeedView then Some(request.httpMethod + " feed/")
        else Some(request.httpMethod + " " + m.route)
  }

  /** Splits an endpoint key at its first space into method and route; the
      inverse of the key format. */
  function SplitKey(key: string): (parts: (string, string))
  {
    if key == [] then ("", "")
    else if key[0] == ' ' then ("", key[1..])
    else
      var (verb, route) := SplitKey(key[1..]);
      ([key[0]] + verb, route)
  }

  lemma {:induction false} SplitKeyOf(verb: string, route: string)
    requires ' ' !in verb
    ensures SplitKey(verb + " " + route) == (verb, route)
  {
    if verb == [] {
      assert verb + " " + route == [' '] + route;
    } else {
      var key := verb + " " + route;
      assert key[0] == verb[0] && verb[0] != ' ';
      assert key[1..] == verb[1..] + " " + route;
      assert ' ' !in verb[1..];
      SplitKeyOf(verb[1..], route);
      assert verb == [verb[0]] + verb[1..];
    }
  }

  /** The route part of a measured request's key: every feed view collapses
      to "feed/", any other view keeps its own route. */
  function KeyRoute(m: ResolverMatch): string
  {
    if m.funcName == FeedView then "feed/" else m.route
  }

  /** A measured request's key is its method, one space, then the route
      part, whatever the method is. */
  lemma PatternNameKey(request: Request)
    requires request.httpMethod !in SkipMethods && request.resolverMatch.Some?
    ensures PatternName(request) == Some(request.httpMethod + " " + KeyRoute(request.resolverMatch.value))
  {
    assert request.httpMethod + " feed/" == request.httpMethod + " " + "feed/";
  }

  /** Since a method has no space, a measured request's key determines its
      method and its route part. */
  lemma PatternNameSplits(request: Request)
    requires ' ' !in request.httpMethod
    requires request.httpMethod !in SkipMethods && request.resolverMatch.Some?
    ensures SplitKey(PatternName(request).value) == (request.httpMethod, KeyRoute(request.resolverMatch.value))
  {
    PatternNameKey(request);
    SplitKeyOf(request.httpMethod, KeyRoute(request.resolverMatch.value));
  }

  /** Two measured requests share a key exactly when their methods agree and
      their route parts agree; in particular all feed requests of one method
      share a key whatever their routes. */
  lemma SameKeyIff(r1: Request, r2: Request)
    requires ' ' !in r1.httpMethod && ' ' !in r2.httpMethod
    requires PatternName(r1).Some? && PatternName(r2).Some?
    ensures PatternName(r1) == PatternName(r2) <==>
            r1.httpMethod == r2.httpMethod && KeyRoute(r1.resolverMatch.value) == KeyRoute(r2.resolverMatch.value)
  {
    PatternNameKey(r1);
    PatternNameKey(r2);
    PatternNameSplits(r1);
    PatternNameSplits(r2);
  }

  /** The most recent `MaxSamples` entries of a history, oldest first. */
  function Recent(history: seq<Sample>): (kept: seq<Sample>)
    ensures |kept| == Min(|history|, MaxSamples)
  {
    if |history| > MaxSamples then history[|history| - MaxSamples..] else history
  }

  /** What is kept is the newest part of the history, in its order. */
  lemma RecentIsSuffix(history: seq<Sample>)
    ensures Recent(history) == history[|history| - |Recent(history)|..]
  {
  }

  /** An endpoint's list after one more sample is appended and the list is
      trimmed to its last `MaxSamples` entries. */
  function Appended(history: seq<Sample>, sample: Sample): (kept: seq<Sample>)
    ensures 0 < |kept| <= MaxSamples
    ensures kept[|kept| - 1] == sample
    ensures |history| < MaxSamples ==> kept == history + [sample]
    ensures |history| >= MaxSamples ==> |kept| == MaxSamples
    ensures |history| == MaxSamples ==> kept == history[1..] + [sample]
  {
    var grown := history + [sample];
    if |grown| > MaxSamples then grown[|grown| - MaxSamples..] else grown
  }

  /** Trimming after every append keeps the same list as trimming the full
      history once: the stored list is always the most recent samples. */
  lemma RecentAppend(log: seq<Sample>, sample: Sample)
    ensures Appended(Recent(log), sample) == Recent(log + [sample])
  {
  }

  /** The endpoint's list in a metrics map; a missing key reads as the
      empty list a default dictionary would create. */
  function History(metrics: map<string, seq<Sample>>, endpoint: string): seq<Sample>
  {
    if endpoint in metrics then metrics[endpoint] else []
  }

  /** The shared per-endpoint metrics dictionary. `log` is the full sequence
      of samples ever recorded for each endpoint; it exists for the proof. */
  class MetricsRegistry {
    var requestMetrics: map<string, seq<Sample>>
    ghost var log: map<string, seq<Sample>>

    /** Every stored list is the most recent part of a non-empty log. */
    ghost predicate Valid()
      reads this
    {
      && requestMetrics.Keys == log.Keys
      && forall endpoint :: endpoint in requestMetrics ==>
           log[endpoint] != [] && requestMetrics[endpoint] == Recent(log[endpoint])
    }

    constructor ()
      ensures Valid() && requestMetrics == map[] && log == map[]
    {
      requestMetrics := map[];
      log := map[];
    }

    /** Appends `sample` to `endpoint`'s list, creating the list on first
        use, and trims it to `MaxSamples` entries. */
    method Record(endpoint: string, sample: Sample)
      requires Valid()
      modifies this
      ensures Valid()
      ensures |History(old(requestMetrics), endpoint)| <= MaxSamples
      ensures requestMetrics == old(requestMetrics)[endpoint := Appended(History(old(requestMetrics), endpoint), sample)]
      ensures log == old(log)[endpoint := History(old(log), endpoint) + [sample]]
    {
      ghost var entries := History(log, endpoint);
      assert History(requestMetrics, endpoint) == Recent(entries);
      var metrics := if endpoint in requestMetrics then requestMetrics[endpoint] else [];
      metrics := metrics + [sample];
      if |metrics| > MaxSamples {
        metrics := metrics[|metrics| - MaxSamples..];
      }
      assert metrics == Appended(Recent(entries), sample);
      RecentAppend(entries, sample);
      requestMetrics := requestMetrics[endpoint := metrics];
      log := log[endpoint := entries + [sample]];
    }
  }

  /** The middleware. The downstream handler and the clock are outside the
      model: a call receives the start and end instants and the time spent
      in the database while the handler ran. */
  class RequestPerformanceMiddleware {
    const metrics: MetricsRegistry

    constructor (metrics: MetricsRegistry)
      ensures this.metrics == metrics
    {
      this.metrics := metrics;
    }

    /** Handles one request: an unmeasured request records nothing; a
        measured one appends a sample to its endpoint's list. */
    method Call(request: Request, startTime: int, endTime: int, dbTime: int) returns (endpoint: Option<string>)
      requires metrics.Valid()
      modifies metrics
      ensures metrics.Valid()
      ensures endpoint == PatternName(request)
      ensures endpoint.None? ==> metrics.requestMetrics == old(metrics.requestMetrics) && metrics.log == old(metrics.log)
      ensures endpoint.Some? ==>
        metrics.requestMetrics == old(metrics.requestMetrics)[endpoint.value :=
          Appended(History(old(metrics.requestMetrics), endpoint.value),
                   Sample(endTime - startTime, dbTime, endTime - startTime - dbTime, startTime))]
    {
      endpoint := PatternName(request);
      if endpoint.None? {
        return;
      }
      var totalTime := endTime - startTime;
      var sample := Sample(totalTime, dbTime, totalTime - dbTime, startTime);
      metrics.Record(endpoint.value, sample);
    }
  }
}
