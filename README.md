# Per-client request quota (fixed window), modelled in Dafny

This project models the rate limiter of a Rails application. It has two parts:

- **`Middleware::RequestLimit`** (`lib/middleware/rate_limit/request_limit.rb`) is the window counter.
  Building one runs a protocol on the shared Redis store.
  The counter key is `"count:" + client key`.
  If that key is absent, it is set to 0 and given an expiry of `time_window` seconds.
  The key is then incremented once.
  Three read-only queries turn the counter into a decision (`reached?`), the quota headers and the JSON rejection message.
- **`Middleware::RateLimit`** (`lib/middleware/rate_limit.rb`) is the Rack middleware.
  It builds a `RequestLimit` for `REMOTE_ADDR`, with limit 100 and a window of 3600 seconds.
  When the limit is reached, it answers 429 with the quota headers and the message.
  Otherwise it calls the next handler and returns that handler's status and body.
  The returned headers are the handler's headers merged with the quota headers, and the quota headers win on a clash.

Files:

- `Optional.dfy`: `Option`, the Ruby `nil` versus a value.
- `Decimal.dfy`: Ruby's `Integer#to_s` (`IntToString`), a parser back (`ParseInt`) and their round trips in both directions.
  The quota headers and the message carry numbers in this form.
- `CounterStore.dfy`: the Redis commands the limiter uses: GET, SET, INCR, EXPIRE and TTL.
  It also has `Elapse`, which lets time pass so that keys expire.
  `StoreState` is the store as a value, with one function per command.
  `Store` is the shared mutable store, and each of its methods is proved against the matching function.
  Redis details that are modelled:
  - SET drops an expiry.
  - EXPIRE on a missing key does nothing.
  - EXPIRE with a non-positive time deletes the key.
  - INCR on a missing key creates it at 1 with no expiry.
  - TTL answers -2 for a missing key and -1 for a key with no expiry.
- `RequestLimit.dfy` (module `RequestLimiting`): specification functions and the class `RequestLimit`.
  - `CounterKey` derives the store key.
  - `AfterRequest` is the store after the protocol.
  - `LimitReached`, `QuotaHeaders` and `RejectionBody` are the three queries.
  - In the class, the constructor and `Process`/`IncrementCount` change the store.
    `Reached`, `RateLimitHeaders` and `LimitReachedMessage` have no `modifies` clause, so they cannot change the store.
- `RateLimit.dfy` (module `RateLimiting`): the middleware.
  - `Handle` is the specification of one call.
  - `RateLimit.Call` is proved against `Handle`.
    The ghost counter `handlerCalls` records whether the next handler ran.
  - `Run` folds requests over the store, and the lemmas about request sequences are stated on it.

Behaviour the proofs make explicit:

- `reached?` runs after the request's own increment. So with limit 100, requests 1 to 99 of a window are forwarded and the 100th is refused (`WindowThreshold`). The tests pin this: the 100th visit gets 429 and Remaining "0".
- Remaining is `limit - count`. It is signed and never clamped, so the 500th request reads "-400".

## Model

| member | source | states |
|---|---|---|
| `RequestLimiting.CounterKey` | lib/middleware/rate_limit/request_limit.rb:45-47 | the store key is the prefix `count:` followed by the client key unchanged |
| `RequestLimiting.CounterKeyInjective` | lib/middleware/rate_limit/request_limit.rb:45-47 | two client keys share a store key if and only if they are equal |
| `RequestLimiting.AfterRequest` | lib/middleware/rate_limit/request_limit.rb:32-43 | after the protocol, the key's count is the old count plus one (1 when absent), and no other key's count or TTL changes; an absent key gets expiry `time_window`; an existing key's TTL is not refreshed; store validity is preserved |
| `RequestLimiting.RequestLimit.constructor` | lib/middleware/rate_limit/request_limit.rb:3-10 | the client key is required; the limit and the window are keyword arguments defaulting to 100 and 3600; construction runs the store protocol, leaving the store at `AfterRequest` of the old store |
| `RequestLimiting.RequestLimit.Process` | lib/middleware/rate_limit/request_limit.rb:32-39 | GET, then SET 0 and EXPIRE only when the key is absent, then one INCR; the new store is `AfterRequest` of the old one |
| `RequestLimiting.RequestLimit.IncrementCount` | lib/middleware/rate_limit/request_limit.rb:41-43 | one INCR: returns the new count, which is the old count plus one |
| `RequestLimiting.NewWithDefaults` | lib/middleware/rate_limit/request_limit.rb:3-10 | built with only a client key on an empty store, the limit is 100, the window 3600, the count 1 and the TTL 3600 |
| `RequestLimiting.LimitReached` | lib/middleware/rate_limit/request_limit.rb:12-14 | `reached?` as a function of the store: the count (0 for an absent key) is at least the limit; no contract of its own, its properties are carried by `RequestLimit.Reached`, `ReachedExamples`, `RejectedAtLimit` and `ForwardedBelowLimit` |
| `RequestLimiting.RequestLimit.Reached` | lib/middleware/rate_limit/request_limit.rb:12-14 | true exactly when the stored count (0 for an absent key) is at least the limit; reads the store only |
| `RequestLimiting.ReachedExamples` | lib/middleware/rate_limit/request_limit.rb:12-14 | at limit 100, counts 101 and 100 are reached, and 99 and 5 are not |
| `RequestLimiting.QuotaHeaders` | lib/middleware/rate_limit/request_limit.rb:16-22 | exactly three headers; Limit is the integer limit; Remaining is canonical decimal text that reads back as `limit - count`; Reset is canonical decimal text that reads back as `ttl + now` |
| `RequestLimiting.RequestLimit.RateLimitHeaders` | lib/middleware/rate_limit/request_limit.rb:16-22 | the headers built from the current store are `QuotaHeaders` of that store; reads the store only |
| `RequestLimiting.HeaderExamples` | lib/middleware/rate_limit/request_limit.rb:16-22 | with count 5, Limit is the integer 100 and Remaining is "95" |
| `RequestLimiting.RequestLimit.TimeTilReset` | lib/middleware/rate_limit/request_limit.rb:49-51 | the reset text reads back as the key's TTL plus the current epoch second |
| `RequestLimiting.RequestLimit.RemainingTimeTilReset` | lib/middleware/rate_limit/request_limit.rb:53-55 | returns the store's TTL for the key |
| `RequestLimiting.RetryMessage` | lib/middleware/rate_limit/request_limit.rb:26 | the text "Rate limit exceeded. Try again in N seconds" with N the TTL; no contract of its own, its properties are carried by `RetryMessageReadable` and `RejectionBody` |
| `RequestLimiting.RejectionBody` | lib/middleware/rate_limit/request_limit.rb:24-28 | the body is a JSON object whose `message` starts with "Rate limit exceeded." and names the TTL as the number of seconds to wait |
| `RequestLimiting.RetryMessageReadable` | lib/middleware/rate_limit/request_limit.rb:26 | the message holds no character Rails' `to_json` would escape (JSON's own escapes and the default HTML-safe ones), starts with the notice, and the TTL can be read back from it |
| `RequestLimiting.RequestLimit.LimitReachedMessage` | lib/middleware/rate_limit/request_limit.rb:24-28 | the message built from the current store is `RejectionBody` of the key's TTL; reads the store only |
| `Decimal.NatToString` | lib/middleware/rate_limit/request_limit.rb:19 | digits only, never empty, no leading zero |
| `Decimal.IntToString` | lib/middleware/rate_limit/request_limit.rb:19 | the text is canonical (an optional minus, then digits with no leading zero, never "-0"), and starts with a minus exactly when the number is negative |
| `Decimal.IntRoundTrip` | lib/middleware/rate_limit/request_limit.rb:19 | reading back the decimal text of any integer, negative ones included, gives that integer |
| `Decimal.CanonicalRoundTrip` | lib/middleware/rate_limit/request_limit.rb:19 | every canonical text reads as a number whose `to_s` is that same text, so canonical text and `to_s` output are the same set |
| `Decimal.IntToStringInjective` | lib/middleware/rate_limit/request_limit.rb:19 | distinct numbers have distinct texts |
| `Decimal.QuotaExamples` | lib/middleware/rate_limit/request_limit.rb:19 | 99, 98, 97, 95, 90, 0 and -400 are written "99", "98", "97", "95", "90", "0" and "-400" |
| `RateLimiting.MergeHeaders` | lib/middleware/rate_limit.rb:28 | the merged keys are the union of both key sets; a quota header always has its quota value; any other handler header keeps its value |
| `RateLimiting.Handle` | lib/middleware/rate_limit.rb:10-32 | one call of `RateLimit#call` as a function of the store, request, handler and clock; no contract of its own, its properties are carried by `RateLimit.Call`, `CallCountsOnce`, `RejectedAtLimit`, `ForwardedBelowLimit` and `RunIsRepeatedCalls` |
| `RateLimiting.RateLimit.constructor` | lib/middleware/rate_limit.rb:5-8 | the middleware holds the next handler and the store it was given, both required |
| `RateLimiting.RateLimit.Call` | lib/middleware/rate_limit.rb:10-32 | the new store and the response are those of `Handle`; the handler-call counter goes up by one exactly when the request is forwarded, and stays put on a 429 |
| `RateLimiting.CallCountsOnce` | lib/middleware/rate_limit.rb:11-16 | each call adds exactly one to its client's counter, admitted or not, and leaves every other key's count and TTL unchanged |
| `RateLimiting.RejectedAtLimit` | lib/middleware/rate_limit.rb:18-23 | when the counter reaches the limit: not forwarded, status 429, exactly the three quota headers with Limit 100, Remaining `limit - count` and Reset `ttl + now`, and a one-element body whose JSON message starts with "Rate limit exceeded." and names the TTL |
| `RateLimiting.ForwardedBelowLimit` | lib/middleware/rate_limit.rb:24-31 | below the limit: forwarded; the handler's status and body unchanged; header keys are the handler's plus the three quota headers; non-clashing handler headers kept; Limit, Remaining and Reset carry the quota values (100, `limit - count`, `ttl + now`) even where the handler set its own |
| `RateLimiting.Run` | lib/middleware/rate_limit.rb:10-16 | serving requests in order keeps the store valid |
| `RateLimiting.RunIsRepeatedCalls` | lib/middleware/rate_limit.rb:10-16 | the store after one more request is the store that `Handle` leaves after the earlier ones |
| `RateLimiting.RunCounts` | lib/middleware/rate_limit.rb:11-16 | after a run of requests, each client's count has grown by exactly the number of its own requests, however requests from different clients interleave |
| `RateLimiting.RunKeepsExpiry` | lib/middleware/rate_limit/request_limit.rb:33-36 | once a counter exists, later requests from any client leave its TTL unchanged |
| `RateLimiting.AnswerAfter` | lib/middleware/rate_limit.rb:18-31 | the answer after earlier requests has Remaining `100 - n`, where n counts this client's requests including this one; it is 429 when n is at least 100, and otherwise the handler's status and body |
| `RateLimiting.WindowThreshold` | lib/middleware/rate_limit.rb:18-31 | in a fresh window the n-th request from a client gets Remaining `100 - n`, is forwarded while n is below 100, and is refused from n = 100 on |
| `RateLimiting.WindowThresholdExamples` | spec/lib/middleware/rate_limit_spec.rb:72-127 | requests 1, 10, 100 and 500 get Remaining "99", "90", "0" and "-400", with statuses 200, 200, 429 and 429 |
| `RateLimiting.InterleavedClients` | spec/lib/middleware/rate_limit_spec.rb:136-143 | requests from A, B, B get Remaining "99", "99", "98" |
| `RateLimiting.PagesShareTheCounter` | spec/lib/middleware/rate_limit_spec.rb:146-155 | three requests from one client to any paths get Remaining "99", "98", "97" |
| `RateLimiting.ServeInterleaved` | spec/lib/middleware/rate_limit_spec.rb:130-143 | through the middleware object on an empty store, requests from A, B, B are forwarded with 200 and body "OK", and get Remaining "99", "99", "98" |
| `RateLimiting.WindowRestartsAfterExpiry` | lib/middleware/rate_limit/request_limit.rb:33-36 | the first request of a window sets a one-hour expiry that later requests do not refresh; after that hour the client's next request counts as 1 and is forwarded |

## Left out

- Redis networking, connection setup and failures are not modelled. The store is an in-memory value, and a failing store command has no counterpart.
- Each request's store commands run as one step, with no clock tick between them. Expiry happens only through an explicit `Elapse`. So the model does not capture a window that expires between the GET and the INCR. In Redis that would leave a counter at 1 with no expiry.
- The concurrent first-request race, where two requests both see the key absent and both reset it, is not modelled. The model is sequential.
- `Time.now` is the parameter `now`.
- `to_json` is written out as `{"message":"…"}`. This is exact because the message contains no character that Rails' encoder changes. That covers JSON's own escapes (quote, backslash, control characters) and the encoder's default HTML-safe escapes (`<`, `>`, `&`, U+2028, U+2029). `RetryMessageReadable` proves this.
- The Rack `env` is reduced to the client address and the path. A missing `REMOTE_ADDR` interpolates as the empty string, which corresponds to `Env("", path)`.
- Rack response headers are a map. The key order of Ruby's merged hash is not kept.
- The next handler is a pure function of the request. A handler that itself used the store, between the count and the header read, is not modelled.
- `autoload`, the Rails configuration (`config/application.rb`) and the RSpec files as code are not part of this model. The tests' scenarios appear as lemmas.
- Redis' 64-bit INCR overflow error is not modelled: counters are unbounded integers.
