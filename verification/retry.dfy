/** Retrying on `429 Too Many Requests` (section 4 of RFC 6585): the
    resolved retry options, the back-off delay, the `Retry-After` value
    (section 10.2.3 of RFC 9110) and the attempt loop of
    `executeEndpointRequest` (src/http/requestExecutor.ts). The transport,
    `Math.random()` and `Date.parse(v) - Date.now()` are parameters. */
module Retry {
  import opened Wrappers
  import opened JsString
  import opened JsonValue
  import opened Errors
  import opened Records
  import opened OpenApi
  import opened ResponseBody

  /** `ResolvedRetry429Options`. */
  datatype RetryOptions = RetryOptions(
    maxRetries: int,
    baseDelayMs: int,
    maxDelayMs: int,
    jitterRatio: real,
    respectRetryAfter: bool)
  {
    predicate Valid() {
      maxRetries >= 0 && baseDelayMs >= 1 && maxDelayMs >= 1 && 0.0 <= jitterRatio <= 1.0
    }
  }

  /** `a ?? b ?? default`. */
  function Pick<T>(a: Option<T>, b: Option<T>, default: T): T {
    a.GetOr(b.GetOr(default))
  }

  function MaxRetriesOf(c: Option<RetryConfig>): Option<real> {
    if c.Some? then c.value.maxRetries else None
  }

  function BaseDelayOf(c: Option<RetryConfig>): Option<real> {
    if c.Some? then c.value.baseDelayMs else None
  }

  function MaxDelayOf(c: Option<RetryConfig>): Option<real> {
    if c.Some? then c.value.maxDelayMs else None
  }

  function JitterOf(c: Option<RetryConfig>): Option<real> {
    if c.Some? then c.value.jitterRatio else None
  }

  function RespectOf(c: Option<RetryConfig>): Option<bool> {
    if c.Some? then c.value.respectRetryAfter else None
  }

  /** `Math.max(lo, Math.floor(x))`. */
  function FloorAtLeast(lo: int, x: real): (n: int)
    ensures n >= lo && (x.Floor >= lo ==> n == x.Floor)
  {
    if x.Floor < lo then lo else x.Floor
  }

  /** `Math.min(1, Math.max(0, x))`. */
  function Clamp01(x: real): (y: real)
    ensures 0.0 <= y <= 1.0 && (0.0 <= x <= 1.0 ==> y == x)
  {
    if x > 1.0 then 1.0 else if x < 0.0 then 0.0 else x
  }

  /** `resolveRetry429Options`: each field from the call, else from the API
      configuration, else the default (0 retries, 250 ms base, 5000 ms cap,
      jitter 0.2, honour `Retry-After`), then made whole and clamped. */
  function ResolveRetry429Options(config: Option<RetryConfig>, input: Option<RetryConfig>): (o: RetryOptions)
    ensures o.Valid()
  {
    RetryOptions(
      FloorAtLeast(0, Pick(MaxRetriesOf(input), MaxRetriesOf(config), 0.0)),
      FloorAtLeast(1, Pick(BaseDelayOf(input), BaseDelayOf(config), 250.0)),
      FloorAtLeast(1, Pick(MaxDelayOf(input), MaxDelayOf(config), 5000.0)),
      Clamp01(Pick(JitterOf(input), JitterOf(config), 0.2)),
      Pick(RespectOf(input), RespectOf(config), true))
  }

  /** Options written back as a configuration. */
  function AsConfig(o: RetryOptions): RetryConfig {
    RetryConfig(Some(o.maxRetries as real), Some(o.baseDelayMs as real), Some(o.maxDelayMs as real),
                Some(o.jitterRatio), Some(o.respectRetryAfter))
  }

  /** With nothing configured the defaults apply. */
  lemma RetryDefaults()
    ensures ResolveRetry429Options(None, None) == RetryOptions(0, 250, 5000, 0.2, true)
  {
  }

  /** Valid options pass through resolution unchanged, from either source,
      so resolving is idempotent; and a fully specified call ignores the
      API configuration. */
  lemma ResolveRetryFixedPoint(o: RetryOptions, config: Option<RetryConfig>, input: Option<RetryConfig>)
    requires o.Valid()
    ensures ResolveRetry429Options(config, Some(AsConfig(o))) == o
    ensures ResolveRetry429Options(Some(AsConfig(o)), None) == o
    ensures var p := ResolveRetry429Options(config, input);
      ResolveRetry429Options(None, Some(AsConfig(p))) == p
  {
  }

  /** `2 ** n`. */
  function Pow2(n: nat): (p: nat)
    ensures p >= 1
  {
    if n == 0 then 1 else 2 * Pow2(n - 1)
  }

  function MinInt(a: int, b: int): int {
    if a <= b then a else b
  }

  function MinReal(a: real, b: real): real {
    if a <= b then a else b
  }

  function MaxReal(a: real, b: real): real {
    if a >= b then a else b
  }

  /** `parseRetryAfterMs`: a header of decimal digits is a number of seconds
      (zero meaning no value); otherwise it is an HTTP date, and
      `dateDelta` gives `Date.parse(v) - Date.now()` (`None` for `NaN`); only
      a positive wait counts. */
  function ParseRetryAfterMs(value: Option<string>, dateDelta: string -> Option<int>): (r: Option<int>)
    ensures r.Some? ==> r.value > 0
    ensures value.None? || value == Some("") ==> r.None?
    ensures value.Some? && Trim(value.value) != "" && AllDigits(Trim(value.value)) ==>
      r == (if DigitsValue(Trim(value.value)) > 0 then Some(DigitsValue(Trim(value.value)) * 1000) else None)
    ensures value.Some? && value.value != "" && !(Trim(value.value) != "" && AllDigits(Trim(value.value))) ==>
      var delta := dateDelta(Trim(value.value));
      (r.Some? <==> delta.Some? && delta.value > 0) && (r.Some? ==> r == delta)
  {
    if value.None? || value.value == "" then None
    else
      var trimmed := Trim(value.value);
      if trimmed != "" && AllDigits(trimmed) then
        var seconds := DigitsValue(trimmed);
        if seconds <= 0 then None else Some(seconds * 1000)
      else
        match dateDelta(trimmed)
        case None => None
        case Some(delta) => if delta <= 0 then None else Some(delta)
  }

  /** A `Retry-After` of `n` seconds, written as `String(n)`, asks for
      `n * 1000` ms when `n` is positive and for nothing when it is 0. */
  lemma RetryAfterSeconds(n: nat, dateDelta: string -> Option<int>)
    ensures ParseRetryAfterMs(Some(NatToString(n)), dateDelta) == if n > 0 then Some(n * 1000) else None
  {
    var s := NatToString(n);
    assert !IsSpace(s[0]) && !IsSpace(s[|s| - 1]);
    assert TrimStart(s) == s;
    assert TrimEnd(s) == s;
    NatToStringValue(n);
  }

  /** A non-empty header of whitespace only is not a number of seconds: it
      trims to the empty string, which goes to the date branch, and as
      `Date.parse("")` is `NaN` it asks for nothing. */
  lemma BlankRetryAfter(value: string, dateDelta: string -> Option<int>)
    requires value != [] && forall k :: 0 <= k < |value| ==> IsSpace(value[k])
    requires dateDelta("").None?
    ensures Trim(value) == ""
    ensures ParseRetryAfterMs(Some(value), dateDelta).None?
  {
    TrimSlice(value);
    var i :| SpaceAround(value, Trim(value), i);
  }

  /** `Math.min(baseDelayMs * 2 ** retryIndex, maxDelayMs)`. */
  function CappedBackoff(o: RetryOptions, retryIndex: nat): int {
    MinInt(o.baseDelayMs * Pow2(retryIndex), o.maxDelayMs)
  }

  /** The capped back-off is positive and at most `maxDelayMs`. */
  lemma CappedBackoffBounds(o: RetryOptions, retryIndex: nat)
    requires o.Valid()
    ensures 1 <= CappedBackoff(o, retryIndex) <= o.maxDelayMs
  {
    MulAtLeastOne(o.baseDelayMs, Pow2(retryIndex));
  }

  /** `computeRetryDelayMs` for the retry after attempt `retryIndex`, with
      `random` the value `Math.random()` returns. */
  function ComputeRetryDelayMs(retryAfter: Option<string>, retryIndex: nat, o: RetryOptions,
                               dateDelta: string -> Option<int>, random: real): real
  {
    DelayAfter(if o.respectRetryAfter then ParseRetryAfterMs(retryAfter, dateDelta) else None,
               CappedBackoff(o, retryIndex) as real, o, random)
  }

  /** The delay once the `Retry-After` wait to honour, if any, and the
      capped back-off are known. */
  function DelayAfter(fromHeader: Option<int>, capped: real, o: RetryOptions, random: real): real {
    if fromHeader.Some? then MinInt(fromHeader.value, o.maxDelayMs) as real
    else if o.jitterRatio == 0.0 then capped
    else MaxReal(0.0, MinReal(o.maxDelayMs as real, capped * (1.0 + (random * 2.0 - 1.0) * o.jitterRatio)))
  }

  lemma DelayAfterBounds(fromHeader: Option<int>, capped: real, o: RetryOptions, random: real)
    requires o.Valid() && 0.0 <= random < 1.0 && 0.0 <= capped <= o.maxDelayMs as real
    requires fromHeader.Some? ==> fromHeader.value > 0
    ensures var d := DelayAfter(fromHeader, capped, o, random);
      && 0.0 <= d <= o.maxDelayMs as real
      && (fromHeader.Some? ==> d == MinInt(fromHeader.value, o.maxDelayMs) as real)
      && (fromHeader.None? && o.jitterRatio == 0.0 ==> d == capped)
      && (fromHeader.None? ==> capped * (1.0 - o.jitterRatio) <= d <= capped * (1.0 + o.jitterRatio))
  {
    if fromHeader.None? {
      if o.jitterRatio != 0.0 {
        JitteredDelayBounds(capped, o.maxDelayMs as real, random, o.jitterRatio);
      } else {
        assert capped * (1.0 - o.jitterRatio) == capped == capped * (1.0 + o.jitterRatio);
      }
    }
  }

  /** The delay lies in `[0, maxDelayMs]`. A respected `Retry-After` gives it,
      capped; otherwise it is the capped exponential back-off, moved by at
      most the jitter ratio either way. */
  lemma RetryDelayBounds(retryAfter: Option<string>, retryIndex: nat, o: RetryOptions,
                         dateDelta: string -> Option<int>, random: real)
    requires o.Valid() && 0.0 <= random < 1.0
    ensures var d := ComputeRetryDelayMs(retryAfter, retryIndex, o, dateDelta, random);
      var header := ParseRetryAfterMs(retryAfter, dateDelta);
      && 0.0 <= d <= o.maxDelayMs as real
      && (o.respectRetryAfter && header.Some? ==> d == MinInt(header.value, o.maxDelayMs) as real)
      && (!(o.respectRetryAfter && header.Some?) && o.jitterRatio == 0.0 ==> d == CappedBackoff(o, retryIndex) as real)
      && (!(o.respectRetryAfter && header.Some?) ==>
            CappedBackoff(o, retryIndex) as real * (1.0 - o.jitterRatio) <= d <= CappedBackoff(o, retryIndex) as real * (1.0 + o.jitterRatio))
  {
    CappedBackoffBounds(o, retryIndex);
    DelayAfterBounds(if o.respectRetryAfter then ParseRetryAfterMs(retryAfter, dateDelta) else None,
                     CappedBackoff(o, retryIndex) as real, o, random);
  }

  lemma JitteredDelayBounds(capped: real, maxDelay: real, random: real, ratio: real)
    requires 0.0 <= capped <= maxDelay && 0.0 <= random < 1.0 && 0.0 <= ratio <= 1.0
    ensures var d := MaxReal(0.0, MinReal(maxDelay, capped * (1.0 + (random * 2.0 - 1.0) * ratio)));
      0.0 <= d <= maxDelay && capped * (1.0 - ratio) <= d <= capped * (1.0 + ratio)
  {
    var jittered := capped * (1.0 + (random * 2.0 - 1.0) * ratio);
    JitterBounds(capped, random, ratio, jittered);
    ClampedJitter(capped, maxDelay, jittered, ratio);
  }

  lemma MulAtLeastOne(a: int, b: int)
    requires a >= 1 && b >= 1
    ensures a * b >= 1
  {
    assert a * b == a * (b - 1) + a;
    MulNonNegativeInt(a, b - 1);
  }

  lemma MulNonNegativeInt(a: int, b: int)
    requires a >= 0 && b >= 0
    ensures a * b >= 0
  {
  }

  lemma JitterBounds(capped: real, random: real, ratio: real, j: real)
    requires capped >= 0.0 && 0.0 <= random < 1.0 && 0.0 <= ratio <= 1.0
    requires j == capped * (1.0 + (random * 2.0 - 1.0) * ratio)
    ensures capped * (1.0 - ratio) <= j <= capped * (1.0 + ratio) && j >= 0.0
  {
    var v := random * 2.0 - 1.0;
    var u := v * ratio;
    MulNonNegative(v + 1.0, ratio);
    MulNonNegative(1.0 - v, ratio);
    assert -ratio <= u <= ratio;
    MulNonNegative(capped, u + ratio);
    MulNonNegative(capped, ratio - u);
    MulNonNegative(capped, 1.0 + u);
  }

  lemma MulNonNegative(a: real, b: real)
    requires a >= 0.0 && b >= 0.0
    ensures a * b >= 0.0
  {
  }

  lemma ClampedJitter(capped: real, maxDelay: real, j: real, ratio: real)
    requires 0.0 <= capped <= maxDelay && 0.0 <= ratio <= 1.0 && j >= 0.0
    requires capped * (1.0 - ratio) <= j <= capped * (1.0 + ratio)
    ensures var d := MaxReal(0.0, MinReal(maxDelay, j));
      0.0 <= d <= maxDelay && capped * (1.0 - ratio) <= d <= capped * (1.0 + ratio)
  {
    assert capped * (1.0 - ratio) <= capped;
  }

  /** What one `fetch` attempt comes to. */
  datatype Attempt =
    | Responded(response: HttpResponse)
    | TimedOut
    | TransportFailed(cause: string)

  /** The attempt loop's result: the final response or error, how many
      attempts were made, and the waits between them. */
  datatype RetryRun = RetryRun(outcome: Result<HttpResponse>, attempts: nat, sleeps: seq<real>)

  /** Identifies the call in transport errors. */
  datatype CallSite = CallSite(apiName: string, endpointId: string, timeoutMs: int)

  function TransportError(site: CallSite, a: Attempt): (e: Error)
    requires !a.Responded?
    ensures e.code == RequestError
  {
    if a.TimedOut? then
      Error(RequestError, "Request timed out after " + IntToString(site.timeoutMs) + "ms",
        Some(JObject([("apiName", JString(site.apiName)), ("endpointId", JString(site.endpointId))])))
    else
      Error(RequestError, "Request failed",
        Some(JObject([("cause", JString(a.cause)), ("apiName", JString(site.apiName)),
                      ("endpointId", JString(site.endpointId))])))
  }

  function RetryAfterHeader(r: HttpResponse): Option<string> {
    Records.Get(r.headers, "retry-after")
  }

  /** The wait before the retry that follows a 429 response to attempt
      `i`. */
  type DelayPolicy = (HttpResponse, nat) -> real

  /** The delays of `computeRetryDelayMs`, with `random(i)` the value
      `Math.random()` gives after attempt `i`. */
  function DelayPolicyOf(o: RetryOptions, dateDelta: string -> Option<int>, random: nat -> real): DelayPolicy {
    (resp: HttpResponse, i: nat) => ComputeRetryDelayMs(RetryAfterHeader(resp), i, o, dateDelta, random(i))
  }

  ghost predicate DelaysBounded(delay: DelayPolicy, maxDelayMs: int) {
    forall resp, i :: delay(resp, i) <= maxDelayMs as real
  }

  /** With valid options and `Math.random()` in `[0, 1)`, no wait exceeds
      `maxDelayMs`. */
  lemma DelayPolicyBounded(o: RetryOptions, dateDelta: string -> Option<int>, random: nat -> real)
    requires o.Valid()
    requires forall i :: 0.0 <= random(i) < 1.0
    ensures DelaysBounded(DelayPolicyOf(o, dateDelta, random), o.maxDelayMs)
  {
    forall resp, i ensures DelayPolicyOf(o, dateDelta, random)(resp, i) <= o.maxDelayMs as real {
      RetryDelayBounds(RetryAfterHeader(resp), i, o, dateDelta, random(i));
    }
  }

  /** The attempts from `attempt` on: stop on a transport error, on a status
      other than 429 or at the last allowed attempt; otherwise wait the
      computed delay (when positive) and try again. */
  function RetryFrom(o: RetryOptions, site: CallSite, transport: nat -> Attempt, delay: DelayPolicy, attempt: nat): RetryRun
    requires o.Valid() && attempt <= o.maxRetries
    decreases o.maxRetries - attempt
  {
    match transport(attempt)
    case Responded(resp) =>
      if resp.status != 429 || attempt >= o.maxRetries then RetryRun(Ok(resp), attempt + 1, [])
      else
        AfterSleeps(Waited(delay(resp, attempt)), RetryFrom(o, site, transport, delay, attempt + 1))
    case _ => RetryRun(Err(TransportError(site, transport(attempt))), attempt + 1, [])
  }

  /** A wait is only taken when it is positive. */
  function Waited(delay: real): seq<real> {
    if delay > 0.0 then [delay] else []
  }

  function AfterSleeps(sleeps: seq<real>, run: RetryRun): RetryRun {
    RetryRun(run.outcome, run.attempts, sleeps + run.sleeps)
  }

  lemma AfterSleepsTwice(a: seq<real>, b: seq<real>, run: RetryRun)
    ensures AfterSleeps(a, AfterSleeps(b, run)) == AfterSleeps(a + b, run)
  {
    assert a + (b + run.sleeps) == (a + b) + run.sleeps;
  }

  /** The loop of `executeEndpointRequest` (lines 108-147); each sleep is
      recorded instead of awaited. */
  method SendWithRetries(o: RetryOptions, site: CallSite, transport: nat -> Attempt, random: nat -> real,
                         dateDelta: string -> Option<int>) returns (run: RetryRun)
    requires o.Valid()
    ensures run == RetryFrom(o, site, transport, DelayPolicyOf(o, dateDelta, random), 0)
  {
    ghost var delay := DelayPolicyOf(o, dateDelta, random);
    var sleeps: seq<real> := [];
    var attempt := 0;
    ghost var spec := RetryFrom(o, site, transport, delay, 0);
    assert [] + spec.sleeps == spec.sleeps;
    while attempt <= o.maxRetries
      invariant 0 <= attempt <= o.maxRetries
      invariant spec == AfterSleeps(sleeps, RetryFrom(o, site, transport, delay, attempt))
      decreases o.maxRetries - attempt
    {
      var reply := transport(attempt);
      if !reply.Responded? {
        run := RetryRun(Err(TransportError(site, reply)), attempt + 1, sleeps);
        assert sleeps + [] == sleeps;
        return;
      }
      var response := reply.response;
      if response.status != 429 || attempt >= o.maxRetries {
        run := RetryRun(Ok(response), attempt + 1, sleeps);
        assert sleeps + [] == sleeps;
        return;
      }
      var delayMs := ComputeRetryDelayMs(RetryAfterHeader(response), attempt, o, dateDelta, random(attempt));
      assert delayMs == delay(response, attempt);
      AfterSleepsTwice(sleeps, Waited(delayMs), RetryFrom(o, site, transport, delay, attempt + 1));
      sleeps := sleeps + Waited(delayMs);
      attempt := attempt + 1;
    }
    assert false;
  }

  /** At least one and at most `maxRetries + 1` attempts are made; every
      wait lies in `(0, maxDelayMs]` and follows an attempt that another
      attempt follows. */
  lemma {:induction false} RetryRunBounds(o: RetryOptions, site: CallSite, transport: nat -> Attempt,
                                          delay: DelayPolicy, attempt: nat)
    requires o.Valid() && attempt <= o.maxRetries
    requires DelaysBounded(delay, o.maxDelayMs)
    ensures var run := RetryFrom(o, site, transport, delay, attempt);
      && attempt + 1 <= run.attempts <= o.maxRetries + 1
      && |run.sleeps| <= run.attempts - attempt - 1
      && forall k :: 0 <= k < |run.sleeps| ==> 0.0 < run.sleeps[k] <= o.maxDelayMs as real
    decreases o.maxRetries - attempt
  {
    var a := transport(attempt);
    if a.Responded? && a.response.status == 429 && attempt < o.maxRetries {
      RetryRunBounds(o, site, transport, delay, attempt + 1);
    }
  }

  /** Every attempt before the last was answered with 429, and the last
      decides: its response when it was answered (with a status other than
      429 unless no retry was left), its transport error otherwise. */
  lemma {:induction false} RetryRunOutcome(o: RetryOptions, site: CallSite, transport: nat -> Attempt,
                                           delay: DelayPolicy, attempt: nat)
    requires o.Valid() && attempt <= o.maxRetries
    ensures var run := RetryFrom(o, site, transport, delay, attempt);
      && run.attempts >= attempt + 1
      && (forall j :: attempt <= j < run.attempts - 1 ==>
            transport(j).Responded? && transport(j).response.status == 429)
      && var last := transport(run.attempts - 1);
         && (run.outcome.Ok? ==>
               last == Responded(run.outcome.value)
               && (run.outcome.value.status != 429 || run.attempts == o.maxRetries + 1))
         && (run.outcome.Err? ==> !last.Responded? && run.outcome.error == TransportError(site, last))
    decreases o.maxRetries - attempt
  {
    var a := transport(attempt);
    if a.Responded? && a.response.status == 429 && attempt < o.maxRetries {
      RetryRunOutcome(o, site, transport, delay, attempt + 1);
    }
  }

  /** With no retries configured there is exactly one attempt and no wait. */
  lemma NoRetriesSingleAttempt(o: RetryOptions, site: CallSite, transport: nat -> Attempt, delay: DelayPolicy)
    requires o.Valid() && o.maxRetries == 0
    ensures var run := RetryFrom(o, site, transport, delay, 0);
      run.attempts == 1 && run.sleeps == []
  {
  }
}
