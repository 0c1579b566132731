/**
 * The window counter: one request's initialise-then-increment protocol on
 * the shared store, and the read-only queries that turn the counter into a
 * decision, the quota headers and the rejection message.
 */
module RequestLimiting {
  import opened Optional
  import opened Decimal
  import opened CounterStore

  const DefaultMaxRequests := 100
  const DefaultTimeWindow := 3600

  const KeyPrefix := "count:"

  const LimitHeader := "X-Rate-Limit-Limit"
  const RemainingHeader := "X-Rate-Limit-Remaining"
  const ResetHeader := "X-Rate-Limit-Reset"

  const ExceededNotice := "Rate limit exceeded."
  const RetryPrefix := ExceededNotice + " Try again in "
  const RetrySuffix := " seconds"
  const JsonOpen := "{\"message\":\""
  const JsonClose := "\"}"

  /** A header value: the limit is sent as an integer, the other two as text. */
  datatype HeaderValue = Num(n: int) | Text(s: string)

  type Headers = map<string, HeaderValue>

  /** The store key of a client: the prefix, then the client key unchanged. */
  function CounterKey(redisKey: string): (k: string)
    ensures KeyPrefix <= k && k[|KeyPrefix|..] == redisKey
  {
    KeyPrefix + redisKey
  }

  /** Distinct clients never share a counter. */
  lemma CounterKeyInjective(a: string, b: string)
    ensures CounterKey(a) == CounterKey(b) <==> a == b
  {
  }

  /**
   * The store after one request: an absent key is created at 0 with an
   * expiry of `timeWindow`, then the key is incremented once.
   */
  function AfterRequest(s: StoreState, key: string, timeWindow: int): (r: StoreState)
    ensures r.Get(key) == Some(s.CountOf(key) + 1)
    ensures forall k :: k != key ==> r.Get(k) == s.Get(k) && r.Ttl(k) == s.Ttl(k)
    ensures key in s.counts ==> r.Ttl(key) == s.Ttl(key)
    ensures key !in s.counts && timeWindow > 0 ==> r.Ttl(key) == timeWindow
    ensures s.Valid() && key !in s.counts && timeWindow <= 0 ==> r.Ttl(key) == NoExpiry
    ensures s.Valid() ==> r.Valid()
  {
    var initialised := if s.Get(key).None? then s.Set(key, 0).Expire(key, timeWindow) else s;
    initialised.Incr(key)
  }

  /** `reached?`: the counter has got to the limit. */
  function LimitReached(s: StoreState, key: string, maxRequests: int): bool {
    s.CountOf(key) >= maxRequests
  }

  /** The boundary of `reached?` at the default limit: 101 and 100 are reached, 99 and 5 are not. */
  lemma ReachedExamples(key: string)
    ensures LimitReached(StoreState(map[key := 101], map[]), key, DefaultMaxRequests)
    ensures LimitReached(StoreState(map[key := 100], map[]), key, DefaultMaxRequests)
    ensures !LimitReached(StoreState(map[key := 99], map[]), key, DefaultMaxRequests)
    ensures !LimitReached(StoreState(map[key := 5], map[]), key, DefaultMaxRequests)
  {
  }

  /**
   * The three quota headers: the limit, the signed and unclamped remainder
   * `maxRequests - count`, and the reset time `ttl + now` in epoch seconds.
   */
  function QuotaHeaders(s: StoreState, key: string, maxRequests: int, now: int): (h: Headers)
    ensures h.Keys == {LimitHeader, RemainingHeader, ResetHeader}
    ensures h[LimitHeader] == Num(maxRequests)
    ensures h[RemainingHeader].Text? && Canonical(h[RemainingHeader].s)
    ensures ParseInt(h[RemainingHeader].s) == Some(maxRequests - s.CountOf(key))
    ensures h[ResetHeader].Text? && Canonical(h[ResetHeader].s)
    ensures ParseInt(h[ResetHeader].s) == Some(s.Ttl(key) + now)
  {
    IntRoundTrip(maxRequests - s.CountOf(key));
    IntRoundTrip(s.Ttl(key) + now);
    map[LimitHeader := Num(maxRequests),
        RemainingHeader := Text(IntToString(maxRequests - s.CountOf(key))),
        ResetHeader := Text(IntToString(s.Ttl(key) + now))]
  }

  /** With 5 requests counted, the headers carry the integer limit 100 and the text "95". */
  lemma HeaderExamples(key: string, ttl: int, now: int)
    requires ttl > 0
    ensures var h := QuotaHeaders(StoreState(map[key := 5], map[key := ttl]), key, DefaultMaxRequests, now);
      && h[LimitHeader] == Num(100)
      && h[RemainingHeader] == Text("95")
      && h[ResetHeader] == Text(IntToString(now + ttl))
  {
    QuotaExamples();
  }

  /** The text of the rejection message for a window with `ttl` seconds left. */
  function RetryMessage(ttl: int): string {
    RetryPrefix + IntToString(ttl) + RetrySuffix
  }

  /**
   * A character Rails' `to_json` writes unchanged: not one JSON must escape
   * (quote, backslash, control characters), nor one the encoder escapes by
   * default for HTML safety (`<`, `>`, `&`, U+2028, U+2029).
   */
  predicate JsonPlainChar(c: char) {
    && c != '"' && c != '\\' && c >= ' '
    && c != '<' && c != '>' && c != '&' && c != '\U{2028}' && c != '\U{2029}'
  }

  /** Text `to_json` carries between the quotes exactly as it is. */
  predicate JsonPlain(s: string) {
    forall i :: 0 <= i < |s| ==> JsonPlainChar(s[i])
  }

  /** The `message` field of a one-field JSON object, when `json` is one. */
  function JsonMessage(json: string): Option<string> {
    if |json| >= |JsonOpen| + |JsonClose| && json[..|JsonOpen|] == JsonOpen
       && json[|json| - |JsonClose|..] == JsonClose
       && JsonPlain(json[|JsonOpen|..|json| - |JsonClose|])
    then Some(json[|JsonOpen|..|json| - |JsonClose|])
    else None
  }

  /** The seconds a rejection message tells the client to wait. */
  function RetryAfter(message: string): Option<int> {
    if |message| >= |RetryPrefix| + |RetrySuffix| && message[..|RetryPrefix|] == RetryPrefix
       && message[|message| - |RetrySuffix|..] == RetrySuffix
    then ParseInt(message[|RetryPrefix|..|message| - |RetrySuffix|])
    else None
  }

  /** The three parts of `p + m + q` can be cut back out of it. */
  lemma SliceConcat(p: string, m: string, q: string)
    ensures var w := p + m + q;
      && w[..|p|] == p
      && w[|p|..|w| - |q|] == m
      && w[|w| - |q|..] == q
  {
  }

  lemma JsonPlainConcat(a: string, b: string)
    requires JsonPlain(a) && JsonPlain(b)
    ensures JsonPlain(a + b)
  {
    forall i | 0 <= i < |a + b|
      ensures JsonPlainChar((a + b)[i])
    {
      if i >= |a| {
        assert (a + b)[i] == b[i - |a|];
      }
    }
  }

  /** Decimal text passes through `to_json` unchanged. */
  lemma DecimalIsJsonPlain(i: int)
    ensures JsonPlain(IntToString(i))
  {
    var t := IntToString(i);
    forall j | 0 <= j < |t| ensures JsonPlainChar(t[j]) {
      if i < 0 && j > 0 {
        assert t[j] == NatToString(-i)[j - 1];
      }
    }
  }

  /** JSON carries a plain message between the braces and reads it back. */
  lemma JsonMessageRoundTrip(message: string)
    requires JsonPlain(message)
    ensures JsonMessage(JsonOpen + message + JsonClose) == Some(message)
  {
    SliceConcat(JsonOpen, message, JsonClose);
  }

  /** The rejection message needs no JSON escaping, starts with the notice and names the TTL. */
  lemma RetryMessageReadable(ttl: int)
    ensures JsonPlain(RetryMessage(ttl))
    ensures ExceededNotice <= RetryMessage(ttl)
    ensures RetryAfter(RetryMessage(ttl)) == Some(ttl)
  {
    var digits := IntToString(ttl);
    DecimalIsJsonPlain(ttl);
    assert JsonPlain(RetryPrefix) by {
      assert JsonPlain(ExceededNotice);
      assert JsonPlain(" Try again in ");
      JsonPlainConcat(ExceededNotice, " Try again in ");
    }
    assert JsonPlain(RetrySuffix);
    JsonPlainConcat(RetryPrefix, digits);
    JsonPlainConcat(RetryPrefix + digits, RetrySuffix);
    SliceConcat(RetryPrefix, digits, RetrySuffix);
    assert ExceededNotice <= RetryPrefix;
    IntRoundTrip(ttl);
  }

  /**
   * The rejection body `{"message":"Rate limit exceeded. Try again in N seconds"}`:
   * a JSON object whose message starts with the notice and names the TTL.
   */
  function RejectionBody(ttl: int): (json: string)
    ensures JsonMessage(json).Some?
    ensures ExceededNotice <= JsonMessage(json).value
    ensures RetryAfter(JsonMessage(json).value) == Some(ttl)
  {
    RetryMessageReadable(ttl);
    JsonMessageRoundTrip(RetryMessage(ttl));
    JsonOpen + RetryMessage(ttl) + JsonClose
  }

  /**
   * One request's view of a client's counter. Building it performs the
   * store protocol; the other members only read the store.
   */
  class RequestLimit {
    const store: Store
    const redisKey: string
    const maxRequests: int
    const timeWindow: int

    /** The client key is required; the limit and the window default to 100 and 3600. */
    constructor (store: Store, nameonly redisKey: string,
                 nameonly maxRequests: int := DefaultMaxRequests,
                 nameonly timeWindow: int := DefaultTimeWindow)
      modifies store
      ensures this.store == store && this.redisKey == redisKey
      ensures this.maxRequests == maxRequests && this.timeWindow == timeWindow
      ensures store.State() == AfterRequest(old(store.State()), CounterKey(redisKey), timeWindow)
    {
      this.store := store;
      this.redisKey := redisKey;
      this.maxRequests := maxRequests;
      this.timeWindow := timeWindow;
      new;
      Process();
    }

    function Key(): string {
      CounterKey(redisKey)
    }

    method Process()
      modifies store
      ensures store.State() == AfterRequest(old(store.State()), Key(), timeWindow)
    {
      var current := store.Get(Key());
      if current.None? {
        store.Set(Key(), 0);
        var _ := store.Expire(Key(), timeWindow);
      }
      var _ := IncrementCount();
    }

    method IncrementCount() returns (count: int)
      modifies store
      ensures store.State() == old(store.State()).Incr(Key())
      ensures count == store.State().CountOf(Key()) == old(store.State()).CountOf(Key()) + 1
    {
      count := store.Incr(Key());
    }

    method Reached() returns (reached: bool)
      ensures reached <==> store.State().CountOf(Key()) >= maxRequests
    {
      var reply := store.Get(Key());
      reached := ToI(reply) >= maxRequests;
    }

    method RateLimitHeaders(now: int) returns (headers: Headers)
      ensures headers == QuotaHeaders(store.State(), Key(), maxRequests, now)
    {
      var reply := store.Get(Key());
      var reset := TimeTilReset(now);
      headers := map[LimitHeader := Num(maxRequests),
                     RemainingHeader := Text(IntToString(maxRequests - ToI(reply))),
                     ResetHeader := Text(reset)];
    }

    method LimitReachedMessage() returns (json: string)
      ensures json == RejectionBody(store.State().Ttl(Key()))
    {
      var ttl := RemainingTimeTilReset();
      json := JsonOpen + RetryMessage(ttl) + JsonClose;
    }

    /** The reset time as text: the seconds left plus the current epoch second. */
    method TimeTilReset(now: int) returns (reset: string)
      ensures ParseInt(reset) == Some(store.State().Ttl(Key()) + now)
      ensures reset == IntToString(store.State().Ttl(Key()) + now)
    {
      var ttl := store.Ttl(Key());
      reset := IntToString(ttl + now);
      IntRoundTrip(ttl + now);
    }

    method RemainingTimeTilReset() returns (ttl: int)
      ensures ttl == store.State().Ttl(Key())
    {
      ttl := store.Ttl(Key());
    }
  }

  /**
   * A request limit built with only the client key, on an empty store: the
   * defaults apply and the client's first request is counted with a fresh
   * one-hour window.
   */
  method NewWithDefaults(redisKey: string) returns (limit: RequestLimit)
    ensures limit.redisKey == redisKey
    ensures limit.maxRequests == 100 && limit.timeWindow == 3600
    ensures limit.store.State().CountOf(CounterKey(redisKey)) == 1
    ensures limit.store.State().Ttl(CounterKey(redisKey)) == 3600
  {
    var store := new Store();
    limit := new RequestLimit(store, redisKey := redisKey);
  }

}
