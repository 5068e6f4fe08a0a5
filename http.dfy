/**
 * The retry loop of the plugin's `http` helper. Each attempt sends one
 * request; the host's `requestUrl` either resolves with a response or
 * rejects with an error that may carry a status. A resolved 429 waits for
 * the Retry-After time and tries again without any limit; any other failure
 * is retried after an exponential backoff capped at 8 seconds, unless its
 * status is listed as not retryable or the attempts are used up. The
 * answers of the server are an abstract sequence of replies, one per
 * request; when they run out before the loop ends, the call is `Pending`.
 */
module Http {
  import opened Common

  /** The Retry-After header of a 429, as `Number(header || 1)` reads it. */
  datatype RetryAfter =
    | NoRetryAfter                    // missing or empty: `|| 1`
    | RetryAfterSeconds(seconds: real) // a number of seconds, possibly fractional or negative
    | RetryAfterUnparsable            // anything `Number` turns into NaN, such as an HTTP-date

  /** What one `requestUrl` call does. */
  datatype Reply =
    | Response(status: nat, retryAfter: RetryAfter, text: string)
      /** `requestUrl` rejects; `status` is 0 when the error carries none. */
    | Rejected(status: nat, text: string, message: string)

  /** The argument of a `delay`: a number of milliseconds, or NaN. */
  datatype Delay = Ms(ms: real) | NotANumber

  datatype Result =
    | Ok(reply: Reply)         // the response is returned
    | Failed(message: string)  // `throw new Error(msg)`
    | NotConnected             // no access token: thrown before any request
    | Pending                  // the modelled replies ran out inside the loop

  /**
   * A call of `http`: its result, how many requests it sent, the delays it
   * awaited in order, how many non-429 failures it saw and the value of
   * `lastHttpError` afterwards.
   */
  datatype Trace = Trace(result: Result, requests: nat, delays: seq<Delay>, failures: nat, lastError: Option<string>)

  /** `Math.max(1, Number(opts.maxAttempts || 5))`: 0 (or absent) means 5. */
  function MaxAttempts(requested: int): (r: int)
    ensures r >= 1
    ensures requested == 0 ==> r == 5
    ensures requested != 0 ==> r == Max(1, requested)
  {
    if requested == 0 then 5 else Max(1, requested)
  }

  /** The decimal digits of `n`, as a template literal prints a status. */
  function DecimalString(n: nat): (r: string)
    ensures |r| >= 1
    ensures forall i :: 0 <= i < |r| ==> '0' <= r[i] <= '9'
    decreases n
  {
    var d := [(48 + n % 10) as char];
    if n < 10 then d else DecimalString(n / 10) + d
  }

  /** A resolved 429. */
  predicate IsThrottle(r: Reply) {
    r.Response? && r.status == 429
  }

  /** A resolved response below 400 other than 429: it is returned. */
  predicate IsSuccess(r: Reply) {
    r.Response? && r.status != 429 && r.status < 400
  }

  /**
   * The message of a failure: `HTTP <status>` followed by `: ` and at most
   * 200 characters of the body when there is one, or the error's own
   * message when it carries no status.
   */
  function ErrorMessage(r: Reply): (msg: string)
    ensures r.status != 0 ==> |msg| >= 5 && msg[..5] == "HTTP " && |msg| <= 5 + |DecimalString(r.status)| + 2 + 200
    ensures r.status == 0 && r.Rejected? ==> msg == r.message
  {
    if r.status != 0 then
      "HTTP " + DecimalString(r.status) + (if r.text != [] then ": " + r.text[..Min(200, |r.text|)] else [])
    else if r.Rejected? then r.message
    else []
  }

  /** `shouldRetry`: the status is not listed and attempt `a` is not the last one allowed. */
  predicate RetryAllowed(r: Reply, a: nat, maxAttempts: int, noRetry: set<nat>) {
    !(r.status != 0 && r.status in noRetry) && a < maxAttempts
  }

  /** The wait before the next request after a 429: `Math.max(1000, ra * 1000)`, NaN when the header does not parse. */
  function ThrottleDelay(ra: RetryAfter): (d: Delay)
    ensures ra.NoRetryAfter? ==> d == Ms(1000.0)
    ensures ra.RetryAfterSeconds? ==> (d.Ms? && d.ms >= 1000.0 && d.ms >= ra.seconds * 1000.0
      && (d.ms == 1000.0 || d.ms == ra.seconds * 1000.0))
    ensures ra.RetryAfterUnparsable? ==> d == NotANumber
  {
    match ra
    case NoRetryAfter => Ms(1000.0)
    case RetryAfterSeconds(v) => Ms(if v * 1000.0 >= 1000.0 then v * 1000.0 else 1000.0)
    case RetryAfterUnparsable => NotANumber
  }

  /** The wait after failed attempt `a`: `Math.min(1000 * 2^(a-1), 8000)` milliseconds. */
  function Backoff(a: nat): (ms: int)
    requires a >= 1
    ensures 1000 <= ms <= 8000
  {
    Min(1000 * Pow2(a - 1), 8000)
  }

  lemma {:induction false} Pow2AtLeast(n: nat)
    requires n >= 3
    ensures Pow2(n) >= 8
    decreases n
  {
    if n > 3 {
      Pow2AtLeast(n - 1);
    }
  }

  /** The backoff doubles from one second up to eight, and stays there from the fourth attempt on. */
  lemma {:induction false} BackoffSchedule(a: nat)
    requires a >= 1
    ensures a == 1 ==> Backoff(a) == 1000
    ensures 1 <= a < 4 ==> Backoff(a + 1) == 2 * Backoff(a)
    ensures a >= 4 ==> Backoff(a) == 8000
    ensures Backoff(a) <= Backoff(a + 1)
  {
    if a >= 4 {
      Pow2AtLeast(a - 1);
    }
    if a >= 3 {
      Pow2AtLeast(a);
    }
  }

  /** `t` preceded by `n` requests, the delays `ds` and `f` failures. */
  function After(n: nat, ds: seq<Delay>, f: nat, t: Trace): Trace {
    t.(requests := n + t.requests, delays := ds + t.delays, failures := f + t.failures)
  }

  /**
   * The loop from the point where `attempt` requests have been sent and
   * `lastError` is the value of `lastHttpError`, on the replies still to come.
   */
  function Retry(replies: seq<Reply>, attempt: nat, maxAttempts: int, noRetry: set<nat>, lastError: Option<string>): (t: Trace)
    ensures t.requests <= |replies|
    ensures t.result.Pending? ==> t.requests == |replies|
    ensures t.result.Pending? ==> |t.delays| == t.requests
    ensures !t.result.Pending? ==> t.requests >= 1 && |t.delays| == t.requests - 1
    ensures t.result.Ok? ==> IsSuccess(t.result.reply) && t.result.reply == replies[t.requests - 1]
    ensures t.result.Failed? ==> var r := replies[t.requests - 1];
      !IsThrottle(r) && !IsSuccess(r) && !RetryAllowed(r, attempt + t.requests, maxAttempts, noRetry)
      && t.result.message == ErrorMessage(r) && t.lastError == Some(ErrorMessage(r))
    ensures t.result != NotConnected
    ensures t.failures <= Max(1, maxAttempts - attempt)
    ensures t.failures == 0 ==> t.lastError == lastError
    ensures t.failures > 0 ==> t.lastError.Some?
    decreases |replies|
  {
    if replies == [] then Trace(Pending, 0, [], 0, lastError)
    else
      var r, a := replies[0], attempt + 1;
      if IsThrottle(r) then
        After(1, [ThrottleDelay(r.retryAfter)], 0, Retry(replies[1..], a, maxAttempts, noRetry, lastError))
      else if IsSuccess(r) then Trace(Ok(r), 1, [], 0, lastError)
      else
        var msg := ErrorMessage(r);
        if RetryAllowed(r, a, maxAttempts, noRetry) then
          After(1, [Ms(Backoff(a) as real)], 1, Retry(replies[1..], a, maxAttempts, noRetry, Some(msg)))
        else Trace(Failed(msg), 1, [], 1, Some(msg))
  }

  /** `http(method, url, opts)` with access token `token`, on the given replies. */
  function Call(token: string, replies: seq<Reply>, maxAttemptsOpt: int, noRetry: set<nat>, lastError: Option<string>): Trace {
    if token == [] then Trace(NotConnected, 0, [], 0, lastError)
    else Retry(replies, 0, MaxAttempts(maxAttemptsOpt), noRetry, lastError)
  }

  /**
   * Without a token nothing is sent; with one, a call sends at least one
   * request, sees at most `max(1, maxAttempts)` non-429 failures, and a
   * failure it ends with is recorded in `lastHttpError`.
   */
  lemma {:induction false} CallBounds(token: string, replies: seq<Reply>, maxAttemptsOpt: int, noRetry: set<nat>, lastError: Option<string>)
    ensures var t := Call(token, replies, maxAttemptsOpt, noRetry, lastError);
      (token == [] <==> t.result == NotConnected)
      && (token == [] ==> t.requests == 0 && t.delays == [] && t.lastError == lastError)
      && (token != [] && replies != [] ==> t.requests >= 1)
      && t.failures <= MaxAttempts(maxAttemptsOpt)
      && (t.result.Failed? ==> t.lastError == Some(t.result.message))
  {
    var t := Call(token, replies, maxAttemptsOpt, noRetry, lastError);
    if token != [] && replies != [] {
      assert t.requests == 0 ==> !t.result.Pending?;
    }
  }

  /** Replies that are all 429s never end the loop: each one is followed by its Retry-After wait. */
  lemma {:induction false} ThrottlesNeverEnd(replies: seq<Reply>, attempt: nat, maxAttempts: int, noRetry: set<nat>, lastError: Option<string>)
    requires forall i :: 0 <= i < |replies| ==> IsThrottle(replies[i])
    ensures var t := Retry(replies, attempt, maxAttempts, noRetry, lastError);
      t.result == Pending && t.requests == |replies| && t.failures == 0 && t.lastError == lastError
      && |t.delays| == |replies|
      && forall i :: 0 <= i < |replies| ==> replies[i].Response? && t.delays[i] == ThrottleDelay(replies[i].retryAfter)
    decreases |replies|
  {
    if replies != [] {
      ThrottlesNeverEnd(replies[1..], attempt + 1, maxAttempts, noRetry, lastError);
      var t := Retry(replies, attempt, maxAttempts, noRetry, lastError);
      forall i | 0 <= i < |replies|
        ensures replies[i].Response? && t.delays[i] == ThrottleDelay(replies[i].retryAfter)
      {
        if i > 0 {
          assert replies[1..][i - 1] == replies[i];
        }
      }
    }
  }

  /** A retryable failure followed by more replies. */
  lemma {:induction false} RetriedOnce(r: Reply, more: seq<Reply>, attempt: nat, maxAttempts: int, noRetry: set<nat>, lastError: Option<string>)
    requires !IsThrottle(r) && !IsSuccess(r) && RetryAllowed(r, attempt + 1, maxAttempts, noRetry)
    ensures Retry([r] + more, attempt, maxAttempts, noRetry, lastError)
      == After(1, [Ms(Backoff(attempt + 1) as real)], 1, Retry(more, attempt + 1, maxAttempts, noRetry, Some(ErrorMessage(r))))
  {
    assert ([r] + more)[0] == r && ([r] + more)[1..] == more;
    RetryStep([r] + more, attempt, maxAttempts, noRetry, lastError);
  }

  /**
   * Failures that may all be retried: with `n` non-429 failures in a row
   * followed by a success, the result is that success after `n` backoffs,
   * the k-th of `Backoff(attempt + k + 1)`, and `lastHttpError` holds the last
   * failure's message.
   */
  lemma {:induction false} RetriedThenOk(fails: seq<Reply>, ok: Reply, attempt: nat, maxAttempts: int, noRetry: set<nat>, lastError: Option<string>)
    requires IsSuccess(ok)
    requires forall i :: 0 <= i < |fails| ==> !IsThrottle(fails[i]) && !IsSuccess(fails[i]) && RetryAllowed(fails[i], attempt + i + 1, maxAttempts, noRetry)
    ensures var t := Retry(fails + [ok], attempt, maxAttempts, noRetry, lastError);
      t.result == Ok(ok) && t.requests == |fails| + 1 && t.failures == |fails|
      && |t.delays| == |fails|
      && (forall k :: 0 <= k < |fails| ==> t.delays[k] == Ms(Backoff(attempt + k + 1) as real))
      && (fails == [] ==> t.lastError == lastError)
      && (fails != [] ==> t.lastError == Some(ErrorMessage(fails[|fails| - 1])))
    decreases |fails|
  {
    if fails == [] {
      assert fails + [ok] == [ok];
      RetryStep([ok], attempt, maxAttempts, noRetry, lastError);
    } else {
      TailRetryable(fails, attempt, maxAttempts, noRetry);
      RetriedThenOk(fails[1..], ok, attempt + 1, maxAttempts, noRetry, Some(ErrorMessage(fails[0])));
      var t := Retry(fails + [ok], attempt, maxAttempts, noRetry, lastError);
      var tr := Retry(fails[1..] + [ok], attempt + 1, maxAttempts, noRetry, Some(ErrorMessage(fails[0])));
      FirstRetried(fails, ok, attempt, maxAttempts, noRetry, lastError);
      PrependRetried(fails, ok, attempt, lastError, t, tr);
    }
  }

  /** A retryable first failure costs one request and one backoff before the rest of the replies. */
  lemma {:induction false} FirstRetried(fails: seq<Reply>, ok: Reply, attempt: nat, maxAttempts: int, noRetry: set<nat>, lastError: Option<string>)
    requires fails != []
    requires !IsThrottle(fails[0]) && !IsSuccess(fails[0]) && RetryAllowed(fails[0], attempt + 1, maxAttempts, noRetry)
    ensures Retry(fails + [ok], attempt, maxAttempts, noRetry, lastError)
      == After(1, [Ms(Backoff(attempt + 1) as real)], 1, Retry(fails[1..] + [ok], attempt + 1, maxAttempts, noRetry, Some(ErrorMessage(fails[0]))))
  {
    assert fails + [ok] == [fails[0]] + (fails[1..] + [ok]);
    RetriedOnce(fails[0], fails[1..] + [ok], attempt, maxAttempts, noRetry, lastError);
  }

  lemma {:induction false} TailRetryable(fails: seq<Reply>, attempt: nat, maxAttempts: int, noRetry: set<nat>)
    requires fails != []
    requires forall i :: 0 <= i < |fails| ==> !IsThrottle(fails[i]) && !IsSuccess(fails[i]) && RetryAllowed(fails[i], attempt + i + 1, maxAttempts, noRetry)
    ensures !IsThrottle(fails[0]) && !IsSuccess(fails[0]) && RetryAllowed(fails[0], attempt + 1, maxAttempts, noRetry)
    ensures var rest := fails[1..];
      forall i :: 0 <= i < |rest| ==> !IsThrottle(rest[i]) && !IsSuccess(rest[i]) && RetryAllowed(rest[i], attempt + 1 + i + 1, maxAttempts, noRetry)
  {
    var rest := fails[1..];
    forall i | 0 <= i < |rest|
      ensures !IsThrottle(rest[i]) && !IsSuccess(rest[i]) && RetryAllowed(rest[i], attempt + 1 + i + 1, maxAttempts, noRetry)
    {
      assert rest[i] == fails[i + 1];
    }
  }

  /** The facts of `RetriedThenOk` for `fails`, from those for its tail after one backoff. */
  lemma {:induction false} PrependRetried(fails: seq<Reply>, ok: Reply, attempt: nat, lastError: Option<string>, t: Trace, tr: Trace)
    requires fails != []
    requires t == After(1, [Ms(Backoff(attempt + 1) as real)], 1, tr)
    requires var rest, msg := fails[1..], ErrorMessage(fails[0]);
      tr.result == Ok(ok) && tr.requests == |rest| + 1 && tr.failures == |rest| && |tr.delays| == |rest|
      && (forall k :: 0 <= k < |rest| ==> tr.delays[k] == Ms(Backoff(attempt + 1 + k + 1) as real))
      && (rest == [] ==> tr.lastError == Some(msg))
      && (rest != [] ==> tr.lastError == Some(ErrorMessage(rest[|rest| - 1])))
    ensures t.result == Ok(ok) && t.requests == |fails| + 1 && t.failures == |fails|
      && |t.delays| == |fails|
      && (forall k :: 0 <= k < |fails| ==> t.delays[k] == Ms(Backoff(attempt + k + 1) as real))
      && t.lastError == Some(ErrorMessage(fails[|fails| - 1]))
  {
    var rest := fails[1..];
    forall k | 0 <= k < |fails|
      ensures t.delays[k] == Ms(Backoff(attempt + k + 1) as real)
    {
      if k > 0 {
        assert t.delays[k] == tr.delays[k - 1];
      }
    }
    assert fails[|fails| - 1] == if rest == [] then fails[0] else rest[|rest| - 1];
  }

  /** A failure whose status is listed in `noRetryStatuses` ends the call with that one request. */
  lemma {:induction false} NoRetryStatusFailsFast(token: string, r: Reply, more: seq<Reply>, maxAttemptsOpt: int, noRetry: set<nat>, lastError: Option<string>)
    requires token != []
    requires !IsThrottle(r) && !IsSuccess(r) && r.status != 0 && r.status in noRetry
    ensures Call(token, [r] + more, maxAttemptsOpt, noRetry, lastError)
      == Trace(Failed(ErrorMessage(r)), 1, [], 1, Some(ErrorMessage(r)))
  {
    assert ([r] + more)[0] == r;
  }

  /** The message of the `HTTP 500` reply in the exhausted-attempts case of `__tests__/plugin/http.test.js:86-111`. */
  lemma {:induction false} Message500(body: string, message: string)
    requires body != [] && |body| <= 200
    ensures ErrorMessage(Rejected(500, body, message)) == "HTTP 500: " + body
  {
    ShortBodyMessage(500, body, message);
    Decimal500();
  }

  /** A non-empty body of at most 200 characters is quoted whole after the status. */
  lemma {:induction false} ShortBodyMessage(status: nat, body: string, message: string)
    requires status != 0 && body != [] && |body| <= 200
    ensures ErrorMessage(Rejected(status, body, message)) == "HTTP " + DecimalString(status) + ": " + body
  {
    assert body[..Min(200, |body|)] == body;
  }

  /** The status text of that reply: `500` in decimal. */
  lemma {:induction false} Decimal500()
    ensures DecimalString(500) == "500"
  {
    assert DecimalString(5) == "5";
    assert DecimalString(50) == "50";
  }

  /** Three retryable failures in a row under `maxAttempts: 3`, as in `__tests__/plugin/http.test.js:86-111`. */
  lemma {:induction false} ThreeFailures(e: Reply, lastError: Option<string>)
    requires !IsThrottle(e) && !IsSuccess(e)
    ensures var msg := ErrorMessage(e);
      Retry([e, e, e], 0, 3, {}, lastError) == Trace(Failed(msg), 3, [Ms(1000.0), Ms(2000.0)], 3, Some(msg))
  {
    var msg := ErrorMessage(e);
    var t3 := Trace(Failed(msg), 1, [], 1, Some(msg));
    var t2 := After(1, [Ms(2000.0)], 1, t3);
    FirstBackoffs();
    RetryStep([e], 2, 3, {}, Some(msg));
    RetryAgain(e, [e], 1, Some(msg), t3);
    RetryAgain(e, [e, e], 0, lastError, t2);
    assert [e] + [e] == [e, e] && [e] + [e, e] == [e, e, e];
  }

  /** The first two waits after a failure, one and two seconds, as that test expects. */
  lemma {:induction false} FirstBackoffs()
    ensures Backoff(1) == 1000 && Backoff(2) == 2000
  {
    assert Pow2(1) == 2;
  }

  /** A retryable failure in front of the replies to come: one request and a backoff wait more. */
  lemma {:induction false} RetryAgain(e: Reply, rest: seq<Reply>, attempt: nat, lastError: Option<string>, t: Trace)
    requires !IsThrottle(e) && !IsSuccess(e) && attempt + 1 < 3
    requires Retry(rest, attempt + 1, 3, {}, Some(ErrorMessage(e))) == t
    ensures Retry([e] + rest, attempt, 3, {}, lastError) == After(1, [Ms(Backoff(attempt + 1) as real)], 1, t)
  {
    assert ([e] + rest)[0] == e && ([e] + rest)[1..] == rest;
    RetryStep([e] + rest, attempt, 3, {}, lastError);
  }

  /**
   * The same server error on every attempt: with `maxAttempts: 3` the call
   * sends three requests, waits one and then two seconds, and fails with the
   * error's message, which is also left in `lastHttpError`.
   */
  lemma {:induction false} ExhaustedAttempts(token: string, body: string, message: string, lastError: Option<string>)
    requires token != [] && body != [] && |body| <= 200
    ensures var e := Rejected(500, body, message);
      Call(token, [e, e, e], 3, {}, lastError)
        == Trace(Failed("HTTP 500: " + body), 3, [Ms(1000.0), Ms(2000.0)], 3, Some("HTTP 500: " + body))
  {
    Message500(body, message);
    ThreeFailures(Rejected(500, body, message), lastError);
  }

  /**
   * The wait after a 429 as the Retry-After header evidently intends:
   * at least one second, the header's number of seconds when it is larger,
   * and the one-second minimum when the header does not parse as a number.
   */
  function IntendedThrottleDelay(ra: RetryAfter): (d: Delay)
    ensures d.Ms? && d.ms >= 1000.0
    ensures ra.RetryAfterSeconds? ==> d == ThrottleDelay(ra)
    ensures !ra.RetryAfterSeconds? ==> d == Ms(1000.0)
  {
    match ra
    case RetryAfterSeconds(_) => ThrottleDelay(ra)
    case _ => Ms(1000.0)
  }

  /**
   * As written, a 429 whose Retry-After is an HTTP-date makes `Number` return
   * NaN, so the wait `Math.max(1000, NaN)` is NaN, which the timer treats as
   * no wait at all: the retry follows at once, and a server that keeps
   * answering so is polled without pause.
   */
  lemma {:induction false} UnparsableRetryAfterDoesNotWait(text: string, n: nat, attempt: nat, maxAttempts: int, noRetry: set<nat>, lastError: Option<string>)
    ensures var replies := seq(n, i => Response(429, RetryAfterUnparsable, text));
      var t := Retry(replies, attempt, maxAttempts, noRetry, lastError);
      t.requests == n && |t.delays| == n && forall i :: 0 <= i < n ==> t.delays[i] == NotANumber
  {
    var replies := seq(n, i => Response(429, RetryAfterUnparsable, text));
    ThrottlesNeverEnd(replies, attempt, maxAttempts, noRetry, lastError);
  }

  /** One turn of the loop. */
  lemma {:induction false} RetryStep(rest: seq<Reply>, attempt: nat, maxAttempts: int, noRetry: set<nat>, lastError: Option<string>)
    requires rest != []
    ensures var r, t := rest[0], Retry(rest, attempt, maxAttempts, noRetry, lastError);
      if IsThrottle(r) then t == After(1, [ThrottleDelay(r.retryAfter)], 0, Retry(rest[1..], attempt + 1, maxAttempts, noRetry, lastError))
      else if IsSuccess(r) then t == Trace(Ok(r), 1, [], 0, lastError)
      else if RetryAllowed(r, attempt + 1, maxAttempts, noRetry) then
        t == After(1, [Ms(Backoff(attempt + 1) as real)], 1, Retry(rest[1..], attempt + 1, maxAttempts, noRetry, Some(ErrorMessage(r))))
      else t == Trace(Failed(ErrorMessage(r)), 1, [], 1, Some(ErrorMessage(r)))
  {
  }

  lemma {:induction false} AfterAfter(n: nat, ds: seq<Delay>, f: nat, d: seq<Delay>, g: nat, t: Trace)
    ensures After(n, ds, f, After(1, d, g, t)) == After(n + 1, ds + d, f + g, t)
  {
    assert ds + (d + t.delays) == (ds + d) + t.delays;
  }

  /** The plugin's state that `http` reads and writes. */
  class Client {
    var accessToken: string
    var lastHttpError: Option<string>

    constructor (token: string)
      ensures accessToken == token && lastHttpError.None?
    {
      accessToken := token;
      lastHttpError := None;
    }

    /**
     * `http(method, url, opts)`: sends requests while the replies last and
     * returns the result, the number of requests and the delays awaited.
     */
    method Request(replies: seq<Reply>, maxAttemptsOpt: int, noRetryStatuses: set<nat>) returns (result: Result, requests: nat, delays: seq<Delay>)
      modifies this`lastHttpError
      ensures var t := Call(accessToken, replies, maxAttemptsOpt, noRetryStatuses, old(lastHttpError));
        result == t.result && requests == t.requests && delays == t.delays && lastHttpError == t.lastError
    {
      if accessToken == [] {
        return NotConnected, 0, [];
      }
      var maxAttempts := MaxAttempts(maxAttemptsOpt);
      ghost var goal := Call(accessToken, replies, maxAttemptsOpt, noRetryStatuses, lastHttpError);
      ghost var failures := 0;
      var attempt := 0;
      delays := [];
      while true
        invariant attempt <= |replies|
        invariant goal == After(attempt, delays, failures, Retry(replies[attempt..], attempt, maxAttempts, noRetryStatuses, lastHttpError))
        decreases |replies| - attempt
      {
        if attempt == |replies| {
          return Pending, attempt, delays;
        }
        var res := replies[attempt];
        ghost var rest := replies[attempt..];
        ghost var prior := lastHttpError;
        assert rest[0] == res && rest[1..] == replies[attempt + 1..];
        RetryStep(rest, attempt, maxAttempts, noRetryStatuses, prior);
        attempt := attempt + 1;
        if IsThrottle(res) {
          AfterAfter(attempt - 1, delays, failures, [ThrottleDelay(res.retryAfter)], 0, Retry(rest[1..], attempt, maxAttempts, noRetryStatuses, prior));
          delays := delays + [ThrottleDelay(res.retryAfter)];
          continue;
        }
        if IsSuccess(res) {
          return Ok(res), attempt, delays;
        }
        var msg := ErrorMessage(res);
        lastHttpError := Some(msg);
        var shouldRetry := !(res.status != 0 && res.status in noRetryStatuses) && attempt < maxAttempts;
        if !shouldRetry {
          return Failed(msg), attempt, delays;
        }
        var backoff := Min(1000 * Pow2(attempt - 1), 8000);
        AfterAfter(attempt - 1, delays, failures, [Ms(backoff as real)], 1, Retry(rest[1..], attempt, maxAttempts, noRetryStatuses, Some(msg)));
        delays := delays + [Ms(backoff as real)];
        failures := failures + 1;
      }
    }
  }
}
