/**
 * The quota middleware: for each request it runs the window counter for the
 * client address, then either answers 429 itself or forwards the request to
 * the next handler and adds the quota headers to that handler's response.
 */
module RateLimiting {
  import opened Optional
  import opened Decimal
  import opened CounterStore
  import opened RequestLimiting

  /** The limit and window the middleware uses for every client. */
  const MaxRequests := 100
  const TimeWindow := 3600
  const TooManyRequests := 429

  /** The request as the middleware sees it: the client address and the path. */
  datatype Env = Env(remoteAddr: string, path: string)

  /** A response: status, headers and body chunks. */
  datatype Response = Response(status: int, headers: Headers, body: seq<string>)

  /** One call of the middleware: the store afterwards, the response, and whether the handler ran. */
  datatype Outcome = Outcome(state: StoreState, response: Response, forwarded: bool)

  /** The handler's headers overlaid by the quota headers; on a clash the quota value wins. */
  function MergeHeaders(handler: Headers, quota: Headers): (merged: Headers)
    ensures merged.Keys == handler.Keys + quota.Keys
    ensures forall h :: h in quota ==> merged[h] == quota[h]
    ensures forall h :: h in handler && h !in quota ==> merged[h] == handler[h]
  {
    handler + quota
  }

  /** The middleware's answer to `env` when the store holds `s` and the clock reads `now`. */
  function Handle(s: StoreState, env: Env, app: Env -> Response, now: int): Outcome {
    var key := CounterKey(env.remoteAddr);
    var counted := AfterRequest(s, key, TimeWindow);
    var quota := QuotaHeaders(counted, key, MaxRequests, now);
    if LimitReached(counted, key, MaxRequests) then
      Outcome(counted, Response(TooManyRequests, quota, [RejectionBody(counted.Ttl(key))]), false)
    else
      var answer := app(env);
      Outcome(counted, Response(answer.status, MergeHeaders(answer.headers, quota), answer.body), true)
  }

  /** Every call adds exactly one to its client's counter and touches no other key. */
  lemma CallCountsOnce(s: StoreState, env: Env, app: Env -> Response, now: int)
    ensures var key := CounterKey(env.remoteAddr);
      var o := Handle(s, env, app, now);
      && o.state.CountOf(key) == s.CountOf(key) + 1
      && forall k :: k != key ==> o.state.Get(k) == s.Get(k) && o.state.Ttl(k) == s.Ttl(k)
  {
  }

  /**
   * A request that brings the counter to the limit or past it is answered
   * 429 with the quota headers and the rejection message; the handler does not run.
   */
  lemma RejectedAtLimit(s: StoreState, env: Env, app: Env -> Response, now: int)
    requires s.CountOf(CounterKey(env.remoteAddr)) + 1 >= MaxRequests
    ensures var key := CounterKey(env.remoteAddr);
      var o := Handle(s, env, app, now);
      var r := o.response;
      && !o.forwarded
      && r.status == TooManyRequests
      && r.headers.Keys == {LimitHeader, RemainingHeader, ResetHeader}
      && r.headers[LimitHeader] == Num(MaxRequests)
      && r.headers[RemainingHeader] == Text(IntToString(MaxRequests - s.CountOf(key) - 1))
      && r.headers[ResetHeader] == Text(IntToString(o.state.Ttl(key) + now))
      && |r.body| == 1
      && JsonMessage(r.body[0]).Some?
      && ExceededNotice <= JsonMessage(r.body[0]).value
      && RetryAfter(JsonMessage(r.body[0]).value) == Some(o.state.Ttl(key))
  {
  }

  /**
   * A request that leaves the counter below the limit is answered by the
   * handler: its status and body unchanged, its headers kept unless a quota
   * header replaces them, and all three quota headers carrying the quota values.
   */
  lemma ForwardedBelowLimit(s: StoreState, env: Env, app: Env -> Response, now: int)
    requires s.CountOf(CounterKey(env.remoteAddr)) + 1 < MaxRequests
    ensures var key := CounterKey(env.remoteAddr);
      var o := Handle(s, env, app, now);
      var r := o.response;
      && o.forwarded
      && r.status == app(env).status
      && r.body == app(env).body
      && r.headers.Keys == app(env).headers.Keys + {LimitHeader, RemainingHeader, ResetHeader}
      && (forall h :: h in app(env).headers && h !in {LimitHeader, RemainingHeader, ResetHeader} ==>
            r.headers[h] == app(env).headers[h])
      && r.headers[LimitHeader] == Num(MaxRequests)
      && r.headers[RemainingHeader] == Text(IntToString(MaxRequests - s.CountOf(key) - 1))
      && r.headers[ResetHeader] == Text(IntToString(o.state.Ttl(key) + now))
  {
  }

  /** The store after serving the requests `envs` in order, starting from `s`. */
  function Run(s: StoreState, envs: seq<Env>): (r: StoreState)
    ensures s.Valid() ==> r.Valid()
    decreases |envs|
  {
    if envs == [] then s
    else AfterRequest(Run(s, envs[..|envs| - 1]), CounterKey(envs[|envs| - 1].remoteAddr), TimeWindow)
  }

  /** `Run` is the middleware's own effect on the store, one call after another. */
  lemma RunIsRepeatedCalls(s: StoreState, envs: seq<Env>, env: Env, app: Env -> Response, now: int)
    ensures Run(s, envs + [env]) == Handle(Run(s, envs), env, app, now).state
  {
    assert (envs + [env])[..|envs|] == envs;
  }

  /** How many of the requests come from `addr`. */
  function Visits(envs: seq<Env>, addr: string): nat
    decreases |envs|
  {
    if envs == [] then 0
    else Visits(envs[..|envs| - 1], addr) + (if envs[|envs| - 1].remoteAddr == addr then 1 else 0)
  }

  /** Each client's counter grows by exactly the number of its own requests. */
  lemma {:induction false} RunCounts(s: StoreState, envs: seq<Env>, addr: string)
    ensures Run(s, envs).CountOf(CounterKey(addr)) == s.CountOf(CounterKey(addr)) + Visits(envs, addr)
    decreases |envs|
  {
    if envs != [] {
      RunCounts(s, envs[..|envs| - 1], addr);
      CounterKeyInjective(envs[|envs| - 1].remoteAddr, addr);
    }
  }

  /** Later requests never refresh the expiry of a counter that already exists. */
  lemma {:induction false} RunKeepsExpiry(s: StoreState, envs: seq<Env>, key: string)
    requires key in s.counts
    ensures key in Run(s, envs).counts
    ensures Run(s, envs).Ttl(key) == s.Ttl(key)
    decreases |envs|
  {
    if envs != [] {
      RunKeepsExpiry(s, envs[..|envs| - 1], key);
    }
  }

  /**
   * The answer to a request that follows the requests `earlier` reports the
   * client's count including this request: Remaining is the limit minus that
   * count, unclamped, and the request is refused exactly when the count has
   * reached the limit.
   */
  lemma AnswerAfter(s: StoreState, earlier: seq<Env>, env: Env, app: Env -> Response, now: int, n: int)
    requires n == s.CountOf(CounterKey(env.remoteAddr)) + Visits(earlier, env.remoteAddr) + 1
    ensures var r := Handle(Run(s, earlier), env, app, now).response;
      && RemainingHeader in r.headers
      && r.headers[RemainingHeader] == Text(IntToString(MaxRequests - n))
      && (n >= MaxRequests ==> r.status == TooManyRequests)
      && (n < MaxRequests ==> r.status == app(env).status && r.body == app(env).body)
  {
    var before := Run(s, earlier);
    RunCounts(s, earlier, env.remoteAddr);
    if before.CountOf(CounterKey(env.remoteAddr)) + 1 >= MaxRequests {
      RejectedAtLimit(before, env, app, now);
    } else {
      ForwardedBelowLimit(before, env, app, now);
    }
  }

  /** `n` requests from one client. */
  function Repeat(env: Env, n: nat): (envs: seq<Env>)
    ensures |envs| == n && forall i :: 0 <= i < n ==> envs[i] == env
  {
    seq(n, _ => env)
  }

  lemma {:induction false} RepeatVisits(env: Env, n: nat)
    ensures Visits(Repeat(env, n), env.remoteAddr) == n
  {
    if n > 0 {
      RepeatVisits(env, n - 1);
      assert Repeat(env, n)[..n - 1] == Repeat(env, n - 1);
    }
  }

  /**
   * In a fresh window, the `n`-th request from a client gets Remaining
   * `100 - n`, is forwarded while `n < 100` and is refused from `n = 100` on.
   */
  lemma WindowThreshold(s: StoreState, env: Env, app: Env -> Response, now: int, n: nat)
    requires CounterKey(env.remoteAddr) !in s.counts
    requires n >= 1
    ensures var r := Handle(Run(s, Repeat(env, n - 1)), env, app, now).response;
      && RemainingHeader in r.headers
      && r.headers[RemainingHeader] == Text(IntToString(MaxRequests - n))
      && (n >= MaxRequests ==> r.status == TooManyRequests)
      && (n < MaxRequests ==> r.status == app(env).status && r.body == app(env).body)
  {
    RepeatVisits(env, n - 1);
    AnswerAfter(s, Repeat(env, n - 1), env, app, now, n);
  }

  /** The counts 1, 10, 100 and 500 give Remaining "99", "90", "0" and "-400", and 200, 200, 429, 429. */
  lemma WindowThresholdExamples(env: Env, app: Env -> Response, now: int)
    requires app(env).status == 200
    ensures var r := Handle(Run(Empty, Repeat(env, 0)), env, app, now).response;
      RemainingHeader in r.headers && r.headers[RemainingHeader] == Text("99") && r.status == 200
    ensures var r := Handle(Run(Empty, Repeat(env, 9)), env, app, now).response;
      RemainingHeader in r.headers && r.headers[RemainingHeader] == Text("90") && r.status == 200
    ensures var r := Handle(Run(Empty, Repeat(env, 99)), env, app, now).response;
      RemainingHeader in r.headers && r.headers[RemainingHeader] == Text("0") && r.status == 429
    ensures var r := Handle(Run(Empty, Repeat(env, 499)), env, app, now).response;
      RemainingHeader in r.headers && r.headers[RemainingHeader] == Text("-400") && r.status == 429
  {
    QuotaExamples();
    WindowThreshold(Empty, env, app, now, 1);
    WindowThreshold(Empty, env, app, now, 10);
    WindowThreshold(Empty, env, app, now, 100);
    WindowThreshold(Empty, env, app, now, 500);
  }

  lemma InterleavedVisits(a: string, b: string, path: string)
    requires a != b
    ensures Visits([Env(a, path)], b) == 0
    ensures Visits([Env(a, path), Env(b, path)], b) == 1
  {
    assert [Env(a, path), Env(b, path)][..1] == [Env(a, path)];
    assert [Env(a, path)][..0] == [];
  }

  /**
   * Requests from A, then B, then B: the two clients count separately, so
   * Remaining reads "99", "99", "98".
   */
  lemma InterleavedClients(a: string, b: string, path: string, app: Env -> Response, now: int)
    requires a != b
    ensures var r := Handle(Run(Empty, []), Env(a, path), app, now).response;
      RemainingHeader in r.headers && r.headers[RemainingHeader] == Text("99")
    ensures var r := Handle(Run(Empty, [Env(a, path)]), Env(b, path), app, now).response;
      RemainingHeader in r.headers && r.headers[RemainingHeader] == Text("99")
    ensures var r := Handle(Run(Empty, [Env(a, path), Env(b, path)]), Env(b, path), app, now).response;
      RemainingHeader in r.headers && r.headers[RemainingHeader] == Text("98")
  {
    QuotaExamples();
    InterleavedVisits(a, b, path);
    AnswerAfter(Empty, [], Env(a, path), app, now, 1);
    AnswerAfter(Empty, [Env(a, path)], Env(b, path), app, now, 1);
    AnswerAfter(Empty, [Env(a, path), Env(b, path)], Env(b, path), app, now, 2);
  }

  /** The path plays no part: three requests from one client to any pages read "99", "98", "97". */
  lemma PagesShareTheCounter(addr: string, p1: string, p2: string, p3: string, app: Env -> Response, now: int)
    ensures var r := Handle(Run(Empty, []), Env(addr, p1), app, now).response;
      RemainingHeader in r.headers && r.headers[RemainingHeader] == Text("99")
    ensures var r := Handle(Run(Empty, [Env(addr, p1)]), Env(addr, p2), app, now).response;
      RemainingHeader in r.headers && r.headers[RemainingHeader] == Text("98")
    ensures var r := Handle(Run(Empty, [Env(addr, p1), Env(addr, p2)]), Env(addr, p3), app, now).response;
      RemainingHeader in r.headers && r.headers[RemainingHeader] == Text("97")
  {
    QuotaExamples();
    assert [Env(addr, p1), Env(addr, p2)][..1] == [Env(addr, p1)];
    assert [Env(addr, p1)][..0] == [];
    assert Visits([Env(addr, p1)], addr) == 1;
    assert Visits([Env(addr, p1), Env(addr, p2)], addr) == 2;
    AnswerAfter(Empty, [], Env(addr, p1), app, now, 1);
    AnswerAfter(Empty, [Env(addr, p1)], Env(addr, p2), app, now, 2);
    AnswerAfter(Empty, [Env(addr, p1), Env(addr, p2)], Env(addr, p3), app, now, 3);
  }

  /**
   * The window resets only by expiry: the first request of a window sets a
   * one-hour expiry that later requests do not refresh, so once the hour has
   * passed the client's next request is counted as the first again.
   */
  lemma WindowRestartsAfterExpiry(s: StoreState, first: Env, later: seq<Env>, next: Env, app: Env -> Response, now: int)
    requires s.Valid()
    requires CounterKey(first.remoteAddr) !in s.counts
    requires next.remoteAddr == first.remoteAddr
    ensures var started := Handle(s, first, app, now).state;
      var expired := Run(started, later).Elapse(TimeWindow);
      var o := Handle(expired, next, app, now);
      && o.state.CountOf(CounterKey(next.remoteAddr)) == 1
      && o.forwarded
  {
    var key := CounterKey(first.remoteAddr);
    var started := Handle(s, first, app, now).state;
    assert started.Ttl(key) == TimeWindow;
    RunKeepsExpiry(started, later, key);
    var served := Run(started, later);
    assert key in served.ttls && served.ttls[key] == TimeWindow;
  }

  /** The middleware, wrapping the next handler and sharing the store. */
  class RateLimit {
    const app: Env -> Response
    const store: Store
    /** How many times the next handler has been invoked. */
    ghost var handlerCalls: nat

    constructor (app: Env -> Response, store: Store)
      ensures this.app == app && this.store == store && handlerCalls == 0
    {
      this.app := app;
      this.store := store;
      handlerCalls := 0;
    }

    method Call(env: Env, now: int) returns (response: Response)
      modifies this, store
      ensures var o := Handle(old(store.State()), env, app, now);
        && store.State() == o.state
        && response == o.response
        && handlerCalls == old(handlerCalls) + (if o.forwarded then 1 else 0)
    {
      var requestLimit := new RequestLimit(store, redisKey := env.remoteAddr,
                                           maxRequests := MaxRequests, timeWindow := TimeWindow);
      var reached := requestLimit.Reached();
      if reached {
        var headers := requestLimit.RateLimitHeaders(now);
        var message := requestLimit.LimitReachedMessage();
        response := Response(TooManyRequests, headers, [message]);
      } else {
        var answer := app(env);
        handlerCalls := handlerCalls + 1;
        var quota := requestLimit.RateLimitHeaders(now);
        response := Response(answer.status, MergeHeaders(answer.headers, quota), answer.body);
      }
    }
  }

  /** The page the handler serves in the examples: 200, plain text, "OK". */
  function PlainOk(env: Env): Response {
    Response(200, map["Content-Type" := Text("text/plain")], ["OK"])
  }

  /**
   * Three requests through one middleware on an empty store, from A, B and B:
   * all forwarded to the page, with Remaining "99", "99" and "98".
   */
  method ServeInterleaved(a: string, b: string, now: int) returns (r1: Response, r2: Response, r3: Response)
    requires a != b
    ensures r1.status == r2.status == r3.status == 200
    ensures r1.body == r2.body == r3.body == ["OK"]
    ensures RemainingHeader in r1.headers && r1.headers[RemainingHeader] == Text("99")
    ensures RemainingHeader in r2.headers && r2.headers[RemainingHeader] == Text("99")
    ensures RemainingHeader in r3.headers && r3.headers[RemainingHeader] == Text("98")
  {
    var store := new Store();
    var middleware := new RateLimit(PlainOk, store);
    r1 := middleware.Call(Env(a, "/"), now);
    r2 := middleware.Call(Env(b, "/"), now);
    r3 := middleware.Call(Env(b, "/"), now);
    QuotaExamples();
    InterleavedVisits(a, b, "/");
    RunIsRepeatedCalls(Empty, [], Env(a, "/"), PlainOk, now);
    RunIsRepeatedCalls(Empty, [Env(a, "/")], Env(b, "/"), PlainOk, now);
    assert [] + [Env(a, "/")] == [Env(a, "/")];
    assert [Env(a, "/")] + [Env(b, "/")] == [Env(a, "/"), Env(b, "/")];
    AnswerAfter(Empty, [], Env(a, "/"), PlainOk, now, 1);
    AnswerAfter(Empty, [Env(a, "/")], Env(b, "/"), PlainOk, now, 1);
    AnswerAfter(Empty, [Env(a, "/"), Env(b, "/")], Env(b, "/"), PlainOk, now, 2);
  }

}
