/** `callLLM(system, user)` of the PoC generator: one chat-completion call with
    retries. Each attempt sends a request and classifies the answer into one of
    five steps: return the text, fail, back off and retry, halve `max_tokens`
    and retry, or retry an empty answer. The provider is a parameter, a
    function from the request to the answer it gets; the request carries its
    attempt number, so the parameter can also be read as a scripted sequence of
    answers. Sleeping is recorded as a list of delays instead of waiting. */
module CallLlm {
  import opened Wrappers
  import opened Text
  import opened Decimal
  import opened PocConfig

  /** What callLLM reads from one HTTP answer: the status, the body text, and
      `choices[0].message.content` (None when absent). */
  datatype Response = Response(status: int, body: string, content: Option<string>)

  /** One request callLLM sends; `attempt` is the loop counter at the time. */
  datatype Request = Request(attempt: nat, url: string, apiKey: string, model: string, maxTokens: int)

  /** The errors callLLM throws. NoAttempt stands for a negative retry count,
      with which the loop body never runs and the code after the loop, which
      is not part of this model, decides the outcome. */
  datatype CallError =
    | MissingApiKey(provider: Provider)
    | RetriesExhausted(provider: Provider, status: int, detail: string)
    | Deterministic400(provider: Provider, detail: string)
    | UnexpectedStatus(provider: Provider, status: int, body: string)
    | EmptyResponse
    | NoAttempt

  /** The text of the thrown Error. */
  function Message(e: CallError): (m: string)
    ensures e.MissingApiKey? || e.RetriesExhausted? || e.Deterministic400? || e.UnexpectedStatus?
            ==> ProviderLabel(e.provider) + " " <= m
    ensures e.MissingApiKey? ==> && |m| > |ProviderName(e.provider)|
                                 && m[|m| - |ProviderName(e.provider)| - 1..] == ProviderName(e.provider) + ")"
    ensures e.RetriesExhausted? || e.UnexpectedStatus?
            ==> ProviderLabel(e.provider) + " " + IntToString(e.status) + ": " <= m
    ensures e.Deterministic400? ==> ProviderLabel(e.provider) + " 400 (deterministic): " <= m
  {
    match e
    case MissingApiKey(p) =>
      ProviderLabel(p) + " API key not set (POC_PROVIDER=" + ProviderName(p) + ")"
    case RetriesExhausted(p, status, detail) =>
      ProviderLabel(p) + " " + IntToString(status) + ": " + detail
    case Deterministic400(p, detail) =>
      ProviderLabel(p) + " 400 (deterministic): " + detail
    case UnexpectedStatus(p, status, body) =>
      ProviderLabel(p) + " " + IntToString(status) + ": " + body
    case EmptyResponse => "Empty response after retries"
    case NoAttempt => ""
  }

  /** Every message about an HTTP answer names the provider and ends with the
      (possibly truncated) body it carries. */
  lemma MessageCarriesBody(e: CallError)
    requires e.RetriesExhausted? || e.Deterministic400? || e.UnexpectedStatus?
    ensures ProviderLabel(e.provider) <= Message(e)
    ensures e.RetriesExhausted? ==> Message(e)[|Message(e)| - |e.detail|..] == e.detail
    ensures e.Deterministic400? ==> Message(e)[|Message(e)| - |e.detail|..] == e.detail
    ensures e.UnexpectedStatus? ==> Message(e)[|Message(e)| - |e.body|..] == e.body
  {
  }

  const TransientMarkers: seq<string> := ["rate limit", "overloaded", "try again", "temporarily", "throttl"]
  const TokenLimitMarkers: seq<string> := ["max_tokens", "context length", "too many tokens"]

  /** Bodies are cut to this many characters in retry-exhausted and
      deterministic-400 errors. */
  const DetailLimit: nat := 300
  const BackoffBase: nat := 3000
  const ShortDelay: nat := 1000
  /** `max_tokens` is halved only while it is above this value. */
  const DownshiftFloor := 2048

  predicate ContainsAny(s: string, markers: seq<string>) {
    exists i :: 0 <= i < |markers| && Contains(s, markers[i])
  }

  function Pow2(n: nat): (p: nat)
    ensures p >= 1
  {
    if n == 0 then 1 else 2 * Pow2(n - 1)
  }

  /** `Math.pow(2, a + b) == Math.pow(2, a) * Math.pow(2, b)`: each further
      attempt doubles the backoff. */
  lemma {:induction false} Pow2Add(a: nat, b: nat)
    ensures Pow2(a + b) == Pow2(a) * Pow2(b)
    decreases a
  {
    if a > 0 {
      Pow2Add(a - 1, b);
      assert Pow2(a + b) == 2 * Pow2(a - 1 + b);
      assert Pow2(a) == 2 * Pow2(a - 1);
    }
  }

  /** `3000 * Math.pow(2, attempt)`. */
  function BackoffDelay(attempt: nat): nat {
    BackoffBase * Pow2(attempt)
  }

  /** `res.ok`. */
  predicate IsOk(status: int) {
    200 <= status <= 299
  }

  /** The statuses retried with exponential backoff. */
  predicate IsThrottleStatus(status: int) {
    status == 429 || status >= 500
  }

  /** What one attempt decides. */
  datatype Step =
    | Done(text: string)
    | Stop(error: CallError)
    | Backoff(delay: nat)
    | Downshift(maxTokens: int)
    | RetryEmpty

  predicate IsRetry(s: Step) {
    s.Backoff? || s.Downshift? || s.RetryEmpty?
  }

  /** The body of the retry loop for one answer, with `attempt` the loop
      counter, `retries` the configured count and `maxTokens` the value just
      sent. */
  function Classify(provider: Provider, resp: Response, attempt: nat, retries: int, maxTokens: int): (s: Step)
    ensures IsRetry(s) ==> attempt < retries
    ensures s.Backoff? ==> s.delay == BackoffDelay(attempt)
    ensures s.Backoff? ==> (|| IsThrottleStatus(resp.status)
                            || (resp.status == 400 && ContainsAny(Lower(resp.body), TransientMarkers)))
    ensures s.Downshift? ==> resp.status == 400 && ContainsAny(Lower(resp.body), TokenLimitMarkers)
                             && maxTokens > DownshiftFloor && s.maxTokens == maxTokens / 2
    ensures s.RetryEmpty? ==> IsOk(resp.status) && (resp.content.None? || IsBlank(resp.content.value))
    ensures s.Done? ==> IsOk(resp.status) && resp.content == Some(s.text) && !IsBlank(s.text)
    ensures resp.status == 400 && attempt >= retries
            ==> s == Stop(Deterministic400(provider, Take(resp.body, DetailLimit)))
    ensures resp.status == 400 && !ContainsAny(Lower(resp.body), TransientMarkers)
            && !ContainsAny(Lower(resp.body), TokenLimitMarkers)
            ==> s == Stop(Deterministic400(provider, Take(resp.body, DetailLimit)))
    // Which step each kind of answer causes.
    ensures IsThrottleStatus(resp.status) && attempt < retries ==> s == Backoff(BackoffDelay(attempt))
    ensures IsThrottleStatus(resp.status) && attempt >= retries
            ==> s == Stop(RetriesExhausted(provider, resp.status, Take(resp.body, DetailLimit)))
    ensures resp.status == 400 && ContainsAny(Lower(resp.body), TransientMarkers) && attempt < retries
            ==> s == Backoff(BackoffDelay(attempt))
    ensures resp.status == 400 && !ContainsAny(Lower(resp.body), TransientMarkers)
            && ContainsAny(Lower(resp.body), TokenLimitMarkers) && attempt < retries && maxTokens > DownshiftFloor
            ==> s == Downshift(maxTokens / 2)
    ensures resp.status == 400 && !ContainsAny(Lower(resp.body), TransientMarkers) && maxTokens <= DownshiftFloor
            ==> s == Stop(Deterministic400(provider, Take(resp.body, DetailLimit)))
    ensures !IsOk(resp.status) && !IsThrottleStatus(resp.status) && resp.status != 400
            ==> s == Stop(UnexpectedStatus(provider, resp.status, resp.body))
    ensures IsOk(resp.status) && (resp.content.None? || IsBlank(resp.content.value))
            ==> s == if attempt < retries then RetryEmpty else Stop(EmptyResponse)
    ensures IsOk(resp.status) && resp.content.Some? && !IsBlank(resp.content.value)
            ==> s == Done(resp.content.value)
  {
    if IsThrottleStatus(resp.status) then
      if attempt < retries then Backoff(BackoffDelay(attempt))
      else Stop(RetriesExhausted(provider, resp.status, Take(resp.body, DetailLimit)))
    else if resp.status == 400 then
      var lower := Lower(resp.body);
      if ContainsAny(lower, TransientMarkers) && attempt < retries then
        Backoff(BackoffDelay(attempt))
      else if ContainsAny(lower, TokenLimitMarkers) && attempt < retries && maxTokens > DownshiftFloor then
        Downshift(maxTokens / 2)
      else
        Stop(Deterministic400(provider, Take(resp.body, DetailLimit)))
    else if !IsOk(resp.status) then
      Stop(UnexpectedStatus(provider, resp.status, resp.body))
    else if resp.content.None? || IsBlank(resp.content.value) then
      if attempt < retries then RetryEmpty else Stop(EmptyResponse)
    else
      Done(resp.content.value)
  }

  /** The delay slept before the next attempt. */
  function RetryDelay(s: Step): nat
    requires IsRetry(s)
  {
    match s
    case Backoff(d) => d
    case Downshift(_) => ShortDelay
    case RetryEmpty => ShortDelay
  }

  /** The `max_tokens` value of the next attempt. */
  function NextMaxTokens(s: Step, maxTokens: int): int
    requires IsRetry(s)
  {
    if s.Downshift? then s.maxTokens else maxTokens
  }

  /** An answer that lets the loop go on when budget remains. */
  predicate IsRetryable(resp: Response) {
    || IsThrottleStatus(resp.status)
    || (resp.status == 400 && (ContainsAny(Lower(resp.body), TransientMarkers)
                               || ContainsAny(Lower(resp.body), TokenLimitMarkers)))
    || (IsOk(resp.status) && (resp.content.None? || IsBlank(resp.content.value)))
  }

  /** `max_tokens` either stays or is halved from above the floor. */
  predicate TokenStep(before: int, after: int) {
    after == before || (before > DownshiftFloor && after == before / 2)
  }

  /** Where every request of one call goes. */
  datatype Endpoint = Endpoint(provider: Provider, url: string, apiKey: string, model: string)

  /** The outcome of one call with what it did on the way: the requests it
      sent, in order, and the delays it slept between them. */
  datatype CallReport = CallReport(result: Result<string, CallError>, requests: seq<Request>, sleeps: seq<nat>) {

    function Attempts(): nat {
      |requests|
    }

    function MaxTokensSent(): (t: seq<int>)
      ensures |t| == |requests|
      ensures forall i :: 0 <= i < |t| ==> t[i] == requests[i].maxTokens
    {
      seq(|requests|, i requires 0 <= i < |requests| => requests[i].maxTokens)
    }
  }

  /** The loop from `attempt` on, with `maxTokens` the value the next request
      carries: between one request and one per remaining attempt, all to the
      same endpoint with consecutive attempt numbers, the first with
      `maxTokens`; a success is the content of the last answer. */
  function RunFrom(ep: Endpoint, server: Request -> Response, retries: int, attempt: nat, maxTokens: int): (r: CallReport)
    requires attempt <= retries
    ensures 1 <= |r.requests| <= retries - attempt + 1
    ensures |r.sleeps| == |r.requests| - 1
    ensures forall i :: 0 <= i < |r.requests| ==>
              r.requests[i] == Request(attempt + i, ep.url, ep.apiKey, ep.model, r.requests[i].maxTokens)
    ensures r.requests[0].maxTokens == maxTokens
    ensures r.result.Success? ==>
              var last := server(r.requests[|r.requests| - 1]);
              IsOk(last.status) && last.content == Some(r.result.value) && !IsBlank(r.result.value)
    decreases retries - attempt
  {
    var req := Request(attempt, ep.url, ep.apiKey, ep.model, maxTokens);
    var step := Classify(ep.provider, server(req), attempt, retries, maxTokens);
    if step.Done? then CallReport(Success(step.text), [req], [])
    else if step.Stop? then CallReport(Failure(step.error), [req], [])
    else
      var rest := RunFrom(ep, server, retries, attempt + 1, NextMaxTokens(step, maxTokens));
      var r := CallReport(rest.result, [req] + rest.requests, [RetryDelay(step)] + rest.sleeps);
      assert forall i :: 0 < i < |r.requests| ==> r.requests[i] == rest.requests[i - 1];
      r
  }

  /** The step the loop takes on the answer to the `i`-th request of a call. */
  function StepAt(provider: Provider, server: Request -> Response, retries: int, r: CallReport, i: nat): Step
    requires i < |r.requests|
  {
    Classify(provider, server(r.requests[i]), r.requests[i].attempt, retries, r.requests[i].maxTokens)
  }

  /** The call follows its answers step by step: every answer but the last is
      a retry step, after which the loop sleeps that step's delay and sends
      that step's `max_tokens`; the last answer ends the loop, and its text or
      error is the result. */
  predicate FollowsSteps(provider: Provider, server: Request -> Response, retries: int, r: CallReport) {
    && |r.requests| >= 1
    && |r.sleeps| == |r.requests| - 1
    && (forall i :: 0 <= i < |r.requests| - 1 ==>
          && IsRetry(StepAt(provider, server, retries, r, i))
          && r.sleeps[i] == RetryDelay(StepAt(provider, server, retries, r, i))
          && r.requests[i + 1].maxTokens == NextMaxTokens(StepAt(provider, server, retries, r, i), r.requests[i].maxTokens))
    && var last := StepAt(provider, server, retries, r, |r.requests| - 1);
       || (last.Done? && r.result == Success(last.text))
       || (last.Stop? && r.result == Failure(last.error))
  }

  /** The loop from any attempt follows its answers step by step. */
  lemma {:induction false} RunFromTrace(ep: Endpoint, server: Request -> Response, retries: int, attempt: nat, maxTokens: int)
    requires attempt <= retries
    ensures FollowsSteps(ep.provider, server, retries, RunFrom(ep, server, retries, attempt, maxTokens))
    decreases retries - attempt
  {
    var req := Request(attempt, ep.url, ep.apiKey, ep.model, maxTokens);
    var step := Classify(ep.provider, server(req), attempt, retries, maxTokens);
    var r := RunFrom(ep, server, retries, attempt, maxTokens);
    if IsRetry(step) {
      var next := NextMaxTokens(step, maxTokens);
      RunFromTrace(ep, server, retries, attempt + 1, next);
      var rest := RunFrom(ep, server, retries, attempt + 1, next);
      assert r == CallReport(rest.result, [req] + rest.requests, [RetryDelay(step)] + rest.sleeps);
      RetryThenFollows(ep.provider, server, retries, req, rest);
    } else {
      assert r.requests == [req];
      assert StepAt(ep.provider, server, retries, r, 0) == step;
    }
  }

  /** A retry step followed by a call that follows its answers is a call that
      follows its answers. */
  lemma RetryThenFollows(provider: Provider, server: Request -> Response, retries: int, req: Request, rest: CallReport)
    requires IsRetry(Classify(provider, server(req), req.attempt, retries, req.maxTokens))
    requires FollowsSteps(provider, server, retries, rest)
    requires rest.requests[0].maxTokens
             == NextMaxTokens(Classify(provider, server(req), req.attempt, retries, req.maxTokens), req.maxTokens)
    ensures var step := Classify(provider, server(req), req.attempt, retries, req.maxTokens);
            FollowsSteps(provider, server, retries,
                         CallReport(rest.result, [req] + rest.requests, [RetryDelay(step)] + rest.sleeps))
  {
    var step := Classify(provider, server(req), req.attempt, retries, req.maxTokens);
    var r := CallReport(rest.result, [req] + rest.requests, [RetryDelay(step)] + rest.sleeps);
    assert r.requests[0] == req;
    forall i | 0 < i < |r.requests|
      ensures StepAt(provider, server, retries, r, i) == StepAt(provider, server, retries, rest, i - 1)
    {
      assert r.requests[i] == rest.requests[i - 1];
    }
    forall i | 0 <= i < |r.requests| - 1
      ensures && IsRetry(StepAt(provider, server, retries, r, i))
              && r.sleeps[i] == RetryDelay(StepAt(provider, server, retries, r, i))
              && r.requests[i + 1].maxTokens
                 == NextMaxTokens(StepAt(provider, server, retries, r, i), r.requests[i].maxTokens)
    {
      if i > 0 {
        assert r.sleeps[i] == rest.sleeps[i - 1];
        assert r.requests[i + 1] == rest.requests[i];
      }
    }
  }

  /** What the loop sleeps and sends between attempts: `max_tokens` only stays
      or is halved from above the floor, each change after a 1000 ms sleep;
      every sleep is 1000 ms or the backoff of its attempt; and every answer
      but the last let the loop go on. */
  predicate TraceFacts(server: Request -> Response, attempt: nat, r: CallReport)
    requires |r.sleeps| == |r.requests| - 1
  {
    && (forall i :: 0 < i < |r.requests| ==> TokenStep(r.requests[i - 1].maxTokens, r.requests[i].maxTokens))
    && (forall i :: 0 < i < |r.requests| && r.requests[i].maxTokens != r.requests[i - 1].maxTokens
          ==> r.sleeps[i - 1] == ShortDelay)
    && (forall i :: 0 <= i < |r.sleeps| ==> r.sleeps[i] == ShortDelay || r.sleeps[i] == BackoffDelay(attempt + i))
    && (forall i :: 0 <= i < |r.requests| - 1 ==> IsRetryable(server(r.requests[i])))
  }

  /** A call that follows its answers step by step from `attempt` has the
      trace facts: they hold of every retry step. */
  lemma StepsGiveTraceFacts(provider: Provider, server: Request -> Response, retries: int, attempt: nat, r: CallReport)
    requires FollowsSteps(provider, server, retries, r)
    requires forall i :: 0 <= i < |r.requests| ==> r.requests[i].attempt == attempt + i
    ensures TraceFacts(server, attempt, r)
  {
    forall i | 0 < i < |r.requests|
      ensures TokenStep(r.requests[i - 1].maxTokens, r.requests[i].maxTokens)
      ensures r.requests[i].maxTokens != r.requests[i - 1].maxTokens ==> r.sleeps[i - 1] == ShortDelay
    {
      var s := StepAt(provider, server, retries, r, i - 1);
      assert IsRetry(s) && r.requests[i].maxTokens == NextMaxTokens(s, r.requests[i - 1].maxTokens);
    }
    forall i | 0 <= i < |r.sleeps|
      ensures r.sleeps[i] == ShortDelay || r.sleeps[i] == BackoffDelay(attempt + i)
      ensures IsRetryable(server(r.requests[i]))
    {
      var s := StepAt(provider, server, retries, r, i);
      assert IsRetry(s) && r.sleeps[i] == RetryDelay(s);
    }
  }

  /** `callLLM` with `cfg` the `POC_CFG` loaded at start-up and `env` the
      environment at the time of the call. A missing key fails before any
      request; otherwise at most `retries + 1` requests go to the resolved
      provider's endpoint with its own key. */
  function CallLLM(cfg: PocCfg, env: Env, server: Request -> Response): (r: CallReport)
    ensures GetPocApiKey(env).None? ==>
              r == CallReport(Failure(MissingApiKey(ResolvePocProvider(env))), [], [])
    ensures GetPocApiKey(env).Some? && cfg.retries >= 0 ==> 1 <= r.Attempts() <= cfg.retries + 1
    ensures cfg.retries < 0 ==> r.Attempts() == 0
    ensures |r.sleeps| == if r.Attempts() == 0 then 0 else r.Attempts() - 1
    ensures forall i :: 0 <= i < |r.requests| ==>
              && r.requests[i].attempt == i
              && r.requests[i].url == GetPocApiUrl(env)
              && r.requests[i].apiKey == env[KeyVariable(ResolvePocProvider(env))]
              && r.requests[i].model == GetPocModel(env)
    ensures r.Attempts() > 0 ==> r.requests[0].maxTokens == cfg.maxTokens
    ensures forall i :: 0 < i < |r.requests| ==> TokenStep(r.requests[i - 1].maxTokens, r.requests[i].maxTokens)
    ensures forall i :: 0 < i < |r.requests| && r.requests[i].maxTokens != r.requests[i - 1].maxTokens
              ==> r.sleeps[i - 1] == ShortDelay
    ensures forall i :: 0 <= i < |r.sleeps| ==> r.sleeps[i] == ShortDelay || r.sleeps[i] == BackoffDelay(i)
    ensures forall i :: 0 <= i < |r.requests| - 1 ==> IsRetryable(server(r.requests[i]))
    ensures GetPocApiKey(env).Some? && cfg.retries >= 0 ==> FollowsSteps(ResolvePocProvider(env), server, cfg.retries, r)
    ensures r.result.Success? ==>
              && r.Attempts() > 0
              && var last := server(r.requests[|r.requests| - 1]);
                 IsOk(last.status) && last.content == Some(r.result.value) && !IsBlank(r.result.value)
  {
    var provider := ResolvePocProvider(env);
    match GetPocApiKey(env)
    case None => CallReport(Failure(MissingApiKey(provider)), [], [])
    case Some(key) =>
      if cfg.retries < 0 then CallReport(Failure(NoAttempt), [], [])
      else
        var ep := Endpoint(provider, GetPocApiUrl(env), key, GetPocModel(env));
        RunFromTrace(ep, server, cfg.retries, 0, cfg.maxTokens);
        StepsGiveTraceFacts(provider, server, cfg.retries, 0, RunFrom(ep, server, cfg.retries, 0, cfg.maxTokens));
        RunFrom(ep, server, cfg.retries, 0, cfg.maxTokens)
  }
}
