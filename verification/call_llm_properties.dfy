/** What callLLM promises over whole calls: the backoff schedule, failing fast
    on deterministic answers, the `max_tokens` downshift, and the worked
    scenarios of the generator's design notes. */
module CallLlmProperties {
  import opened Wrappers
  import opened Text
  import opened PocConfig
  import opened CallLlm

  /** The delays of `n` consecutive backoffs starting at attempt `from`. */
  function BackoffSchedule(from: nat, n: nat): (d: seq<nat>)
    ensures |d| == n
    ensures forall i :: 0 <= i < n ==> d[i] == BackoffDelay(from + i)
    decreases n
  {
    if n == 0 then [] else [BackoffDelay(from)] + BackoffSchedule(from + 1, n - 1)
  }

  /** The endpoint callLLM uses for `env`, once it has found the key. */
  function EndpointFor(env: Env): Endpoint
    requires GetPocApiKey(env).Some?
  {
    Endpoint(ResolvePocProvider(env), GetPocApiUrl(env), GetPocApiKey(env).value, GetPocModel(env))
  }

  // ---------------------------------------------------------------------
  // Whole runs of retryable answers.

  /** While the provider throttles (429 or 5xx) every attempt before the last,
      the loop sleeps 3000 * 2^attempt between attempts and uses every one of
      them; the outcome is what the last attempt decides. */
  lemma {:induction false} ThrottledRun(ep: Endpoint, server: Request -> Response, retries: int, attempt: nat, maxTokens: int)
    requires attempt <= retries
    requires forall req: Request :: req.attempt < retries ==> IsThrottleStatus(server(req).status)
    ensures |RunFrom(ep, server, retries, attempt, maxTokens).requests| == retries - attempt + 1
    ensures RunFrom(ep, server, retries, attempt, maxTokens).sleeps == BackoffSchedule(attempt, retries - attempt)
    ensures RunFrom(ep, server, retries, attempt, maxTokens).result == RunFrom(ep, server, retries, retries, maxTokens).result
    ensures forall i :: 0 <= i < |RunFrom(ep, server, retries, attempt, maxTokens).requests| ==>
              RunFrom(ep, server, retries, attempt, maxTokens).requests[i].maxTokens == maxTokens
    decreases retries - attempt
  {
    if attempt < retries {
      var req := Request(attempt, ep.url, ep.apiKey, ep.model, maxTokens);
      assert IsThrottleStatus(server(req).status);
      assert Classify(ep.provider, server(req), attempt, retries, maxTokens) == Backoff(BackoffDelay(attempt));
      ThrottledRun(ep, server, retries, attempt + 1, maxTokens);
      var rest := RunFrom(ep, server, retries, attempt + 1, maxTokens);
      assert RunFrom(ep, server, retries, attempt, maxTokens)
          == CallReport(rest.result, [req] + rest.requests, [BackoffDelay(attempt)] + rest.sleeps);
    }
  }

  /** 429 (or 5xx) on every attempt but the last, then a real answer: the call
      succeeds with that answer after exactly `retries + 1` requests, having
      slept 3000, 6000, 12000, ... ms. */
  lemma ThrottledThenSucceeds(cfg: PocCfg, env: Env, server: Request -> Response, text: string)
    requires GetPocApiKey(env).Some? && cfg.retries >= 0
    requires forall req: Request :: req.attempt < cfg.retries ==> IsThrottleStatus(server(req).status)
    requires forall req: Request :: req.attempt == cfg.retries ==>
               IsOk(server(req).status) && server(req).content == Some(text)
    requires !IsBlank(text)
    ensures CallLLM(cfg, env, server).result == Success(text)
    ensures CallLLM(cfg, env, server).Attempts() == cfg.retries + 1
    ensures CallLLM(cfg, env, server).sleeps == BackoffSchedule(0, cfg.retries)
  {
    ThrottledRun(EndpointFor(env), server, cfg.retries, 0, cfg.maxTokens);
  }

  /** A provider that throttles every attempt exhausts the budget: `retries + 1`
      requests, the backoff schedule between them, and an error carrying the
      last status and at most 300 characters of the last body. */
  lemma ThrottledThroughout(cfg: PocCfg, env: Env, server: Request -> Response)
    requires GetPocApiKey(env).Some? && cfg.retries >= 0
    requires forall req: Request :: IsThrottleStatus(server(req).status)
    ensures var r := CallLLM(cfg, env, server);
            && r.Attempts() == cfg.retries + 1
            && var last := server(r.requests[cfg.retries]);
            && r.sleeps == BackoffSchedule(0, cfg.retries)
            && r.result == Failure(RetriesExhausted(ResolvePocProvider(env), last.status, Take(last.body, DetailLimit)))
            && |r.result.error.detail| <= 300
  {
    var ep := EndpointFor(env);
    ThrottledRun(ep, server, cfg.retries, 0, cfg.maxTokens);
    var last := Request(cfg.retries, ep.url, ep.apiKey, ep.model, cfg.maxTokens);
    assert CallLLM(cfg, env, server).requests[cfg.retries] == last;
    assert RunFrom(ep, server, cfg.retries, cfg.retries, cfg.maxTokens).result
        == Failure(RetriesExhausted(ep.provider, server(last).status, Take(server(last).body, DetailLimit)));
  }

  /** While every answer is a success status with absent or blank content, the
      loop retries after 1000 ms each time until the budget is spent. */
  lemma {:induction false} EmptyRun(ep: Endpoint, server: Request -> Response, retries: int, attempt: nat, maxTokens: int)
    requires attempt <= retries
    requires forall req: Request :: IsOk(server(req).status)
               && (server(req).content.None? || IsBlank(server(req).content.value))
    ensures var r := RunFrom(ep, server, retries, attempt, maxTokens);
            && |r.requests| == retries - attempt + 1
            && (forall i :: 0 <= i < |r.sleeps| ==> r.sleeps[i] == ShortDelay)
            && r.result == Failure(EmptyResponse)
    decreases retries - attempt
  {
    if attempt < retries {
      EmptyRun(ep, server, retries, attempt + 1, maxTokens);
      var rest := RunFrom(ep, server, retries, attempt + 1, maxTokens);
      var r := RunFrom(ep, server, retries, attempt, maxTokens);
      assert r.sleeps == [ShortDelay] + rest.sleeps;
    }
  }

  /** Empty answers throughout: "Empty response after retries" after
      `retries + 1` requests, each retry after 1000 ms. */
  lemma EmptyThroughout(cfg: PocCfg, env: Env, server: Request -> Response)
    requires GetPocApiKey(env).Some? && cfg.retries >= 0
    requires forall req: Request :: IsOk(server(req).status)
               && (server(req).content.None? || IsBlank(server(req).content.value))
    ensures CallLLM(cfg, env, server).result == Failure(EmptyResponse)
    ensures CallLLM(cfg, env, server).Attempts() == cfg.retries + 1
    ensures forall i :: 0 <= i < |CallLLM(cfg, env, server).sleeps| ==> CallLLM(cfg, env, server).sleeps[i] == ShortDelay
  {
    EmptyRun(EndpointFor(env), server, cfg.retries, 0, cfg.maxTokens);
  }

  // ---------------------------------------------------------------------
  // Answers that end the call at once.

  /** A missing key is reported before any request is sent. */
  lemma MissingKeyBeforeAnyRequest(cfg: PocCfg, env: Env, server: Request -> Response)
    requires !IsSet(env, KeyVariable(ResolvePocProvider(env)))
    ensures CallLLM(cfg, env, server).Attempts() == 0
    ensures Message(CallLLM(cfg, env, server).result.error)
         == ProviderLabel(ResolvePocProvider(env)) + " API key not set (POC_PROVIDER="
            + ProviderName(ResolvePocProvider(env)) + ")"
  {
  }

  /** A 400 whose body names neither a transient condition nor a token limit
      fails on the first attempt, consuming no retry and sleeping not at all. */
  lemma DeterministicFailsFast(cfg: PocCfg, env: Env, server: Request -> Response, resp: Response)
    requires GetPocApiKey(env).Some? && cfg.retries >= 0
    requires forall req: Request :: req.attempt == 0 ==> server(req) == resp
    requires resp.status == 400
    requires !ContainsAny(Lower(resp.body), TransientMarkers) && !ContainsAny(Lower(resp.body), TokenLimitMarkers)
    ensures CallLLM(cfg, env, server).result
         == Failure(Deterministic400(ResolvePocProvider(env), Take(resp.body, DetailLimit)))
    ensures CallLLM(cfg, env, server).Attempts() == 1
    ensures CallLLM(cfg, env, server).sleeps == []
  {
  }

  /** With no retry left, even a 400 that says "rate limit" is reported as a
      deterministic 400. */
  lemma TransientWithoutBudgetIsDeterministic(cfg: PocCfg, env: Env, server: Request -> Response, resp: Response)
    requires GetPocApiKey(env).Some? && cfg.retries == 0
    requires forall req: Request :: req.attempt == 0 ==> server(req) == resp
    requires resp.status == 400
    ensures CallLLM(cfg, env, server).result
         == Failure(Deterministic400(ResolvePocProvider(env), Take(resp.body, DetailLimit)))
    ensures CallLLM(cfg, env, server).Attempts() == 1
  {
  }

  /** Any other status outside 2xx (say 401, 403, 404) fails at once with the
      whole body, untruncated. */
  lemma OtherStatusFailsFast(cfg: PocCfg, env: Env, server: Request -> Response, resp: Response)
    requires GetPocApiKey(env).Some? && cfg.retries >= 0
    requires forall req: Request :: req.attempt == 0 ==> server(req) == resp
    requires !IsOk(resp.status) && !IsThrottleStatus(resp.status) && resp.status != 400
    ensures CallLLM(cfg, env, server).result
         == Failure(UnexpectedStatus(ResolvePocProvider(env), resp.status, resp.body))
    ensures CallLLM(cfg, env, server).Attempts() == 1
  {
  }

  /** A 400 that reports a transient condition is retried after the backoff
      delay while budget remains. */
  lemma TransientIsRetried(cfg: PocCfg, env: Env, server: Request -> Response, resp: Response)
    requires GetPocApiKey(env).Some? && cfg.retries >= 1
    requires forall req: Request :: req.attempt == 0 ==> server(req) == resp
    requires resp.status == 400 && ContainsAny(Lower(resp.body), TransientMarkers)
    ensures CallLLM(cfg, env, server).Attempts() >= 2
    ensures CallLLM(cfg, env, server).sleeps[0] == BackoffBase
    ensures CallLLM(cfg, env, server).requests[1].maxTokens == cfg.maxTokens
  {
    var r := CallLLM(cfg, env, server);
    assert server(r.requests[0]) == resp;
  }

  /** A 400 that reports a token limit, and no transient condition, is retried
      after 1000 ms with `max_tokens` halved, provided it was above 2048. */
  lemma TokenLimitDownshifts(cfg: PocCfg, env: Env, server: Request -> Response, resp: Response)
    requires GetPocApiKey(env).Some? && cfg.retries >= 1 && cfg.maxTokens > DownshiftFloor
    requires forall req: Request :: req.attempt == 0 ==> server(req) == resp
    requires resp.status == 400 && ContainsAny(Lower(resp.body), TokenLimitMarkers)
    requires !ContainsAny(Lower(resp.body), TransientMarkers)
    ensures CallLLM(cfg, env, server).Attempts() >= 2
    ensures CallLLM(cfg, env, server).sleeps[0] == ShortDelay
    ensures CallLLM(cfg, env, server).requests[1].maxTokens == cfg.maxTokens / 2
  {
    var r := CallLLM(cfg, env, server);
    assert server(r.requests[0]) == resp;
  }

  /** At or below 2048, a token-limit 400 is not retried: it is deterministic. */
  lemma TokenLimitAtFloorFails(cfg: PocCfg, env: Env, server: Request -> Response, resp: Response)
    requires GetPocApiKey(env).Some? && cfg.retries >= 0 && cfg.maxTokens <= DownshiftFloor
    requires forall req: Request :: req.attempt == 0 ==> server(req) == resp
    requires resp.status == 400 && !ContainsAny(Lower(resp.body), TransientMarkers)
    ensures CallLLM(cfg, env, server).result
         == Failure(Deterministic400(ResolvePocProvider(env), Take(resp.body, DetailLimit)))
  {
  }

  // ---------------------------------------------------------------------
  // Any answer of any call, whatever came before it.

  /** The call goes on past an answer exactly when that answer is a retry
      step: it stops at the first answer that is not, and that answer's text or
      error is the result. */
  lemma StopsAtFirstFinalAnswer(cfg: PocCfg, env: Env, server: Request -> Response, k: nat)
    requires GetPocApiKey(env).Some? && cfg.retries >= 0
    requires k < CallLLM(cfg, env, server).Attempts()
    ensures var r := CallLLM(cfg, env, server);
            var step := StepAt(ResolvePocProvider(env), server, cfg.retries, r, k);
            && (IsRetry(step) <==> k < r.Attempts() - 1)
            && (IsRetry(step) ==> r.sleeps[k] == RetryDelay(step)
                                  && r.requests[k + 1].maxTokens == NextMaxTokens(step, r.requests[k].maxTokens))
            && (step.Done? ==> r.result == Success(step.text))
            && (step.Stop? ==> r.result == Failure(step.error))
  {
    FollowedStep(ResolvePocProvider(env), server, cfg.retries, CallLLM(cfg, env, server), k);
  }

  /** One answer of a call that follows its answers step by step. */
  lemma FollowedStep(provider: Provider, server: Request -> Response, retries: int, r: CallReport, k: nat)
    requires FollowsSteps(provider, server, retries, r)
    requires k < |r.requests|
    ensures var step := StepAt(provider, server, retries, r, k);
            && (IsRetry(step) <==> k < |r.requests| - 1)
            && (IsRetry(step) ==> r.sleeps[k] == RetryDelay(step)
                                  && r.requests[k + 1].maxTokens == NextMaxTokens(step, r.requests[k].maxTokens))
            && (step.Done? ==> r.result == Success(step.text))
            && (step.Stop? ==> r.result == Failure(step.error))
  {
    var step := StepAt(provider, server, retries, r, k);
    if k == |r.requests| - 1 {
      assert !IsRetry(step);
    }
  }

  /** A 2xx answer with content ends the call with that content, at whatever
      attempt it comes. */
  lemma ContentEndsCall(cfg: PocCfg, env: Env, server: Request -> Response, k: nat)
    requires GetPocApiKey(env).Some? && cfg.retries >= 0
    requires k < CallLLM(cfg, env, server).Attempts()
    requires var resp := server(CallLLM(cfg, env, server).requests[k]);
             IsOk(resp.status) && resp.content.Some? && !IsBlank(resp.content.value)
    ensures var r := CallLLM(cfg, env, server);
            && r.Attempts() == k + 1
            && r.result == Success(server(r.requests[k]).content.value)
  {
    StopsAtFirstFinalAnswer(cfg, env, server, k);
  }

  /** The first answer, when it has content, is the result of a call that
      sends one request and sleeps not at all. */
  lemma FirstAnswerReturned(cfg: PocCfg, env: Env, server: Request -> Response, text: string)
    requires GetPocApiKey(env).Some? && cfg.retries >= 0
    requires forall req: Request :: req.attempt == 0 ==> server(req) == Response(200, text, Some(text))
    requires !IsBlank(text)
    ensures CallLLM(cfg, env, server).result == Success(text)
    ensures CallLLM(cfg, env, server).Attempts() == 1
    ensures CallLLM(cfg, env, server).sleeps == []
  {
    ContentEndsCall(cfg, env, server, 0);
  }

  /** A 429 or 5xx at attempt `k` with budget left is followed by a sleep of
      3000 * 2^k and a request with the same `max_tokens`. */
  lemma ThrottleBacksOff(cfg: PocCfg, env: Env, server: Request -> Response, k: nat)
    requires GetPocApiKey(env).Some? && cfg.retries >= 0
    requires k < CallLLM(cfg, env, server).Attempts() && k < cfg.retries
    requires IsThrottleStatus(server(CallLLM(cfg, env, server).requests[k]).status)
    ensures var r := CallLLM(cfg, env, server);
            && k + 1 < r.Attempts()
            && r.sleeps[k] == BackoffDelay(k)
            && r.requests[k + 1].maxTokens == r.requests[k].maxTokens
  {
    StopsAtFirstFinalAnswer(cfg, env, server, k);
  }

  /** A 429 or 5xx with no budget left ends the call with its status and at
      most 300 characters of its body, whatever came before it. */
  lemma ThrottleWithoutBudgetFails(cfg: PocCfg, env: Env, server: Request -> Response, k: nat)
    requires GetPocApiKey(env).Some? && cfg.retries >= 0
    requires k < CallLLM(cfg, env, server).Attempts() && k >= cfg.retries
    requires IsThrottleStatus(server(CallLLM(cfg, env, server).requests[k]).status)
    ensures var r := CallLLM(cfg, env, server);
            var resp := server(r.requests[k]);
            && r.Attempts() == k + 1
            && r.result == Failure(RetriesExhausted(ResolvePocProvider(env), resp.status, Take(resp.body, DetailLimit)))
            && |r.result.error.detail| <= DetailLimit
  {
    StopsAtFirstFinalAnswer(cfg, env, server, k);
  }

  /** A 400 naming a transient condition at attempt `k` with budget left is
      backed off like a 429. */
  lemma Transient400BacksOff(cfg: PocCfg, env: Env, server: Request -> Response, k: nat)
    requires GetPocApiKey(env).Some? && cfg.retries >= 0
    requires k < CallLLM(cfg, env, server).Attempts() && k < cfg.retries
    requires var resp := server(CallLLM(cfg, env, server).requests[k]);
             resp.status == 400 && ContainsAny(Lower(resp.body), TransientMarkers)
    ensures var r := CallLLM(cfg, env, server);
            && k + 1 < r.Attempts()
            && r.sleeps[k] == BackoffDelay(k)
            && r.requests[k + 1].maxTokens == r.requests[k].maxTokens
  {
    StopsAtFirstFinalAnswer(cfg, env, server, k);
  }

  /** A token-limit 400 at attempt `k`, with budget left and `max_tokens`
      above 2048, halves `max_tokens` after 1000 ms. */
  lemma TokenLimit400Halves(cfg: PocCfg, env: Env, server: Request -> Response, k: nat)
    requires GetPocApiKey(env).Some? && cfg.retries >= 0
    requires k < CallLLM(cfg, env, server).Attempts() && k < cfg.retries
    requires CallLLM(cfg, env, server).requests[k].maxTokens > DownshiftFloor
    requires var resp := server(CallLLM(cfg, env, server).requests[k]);
             && resp.status == 400 && ContainsAny(Lower(resp.body), TokenLimitMarkers)
             && !ContainsAny(Lower(resp.body), TransientMarkers)
    ensures var r := CallLLM(cfg, env, server);
            && k + 1 < r.Attempts()
            && r.sleeps[k] == ShortDelay
            && r.requests[k + 1].maxTokens == r.requests[k].maxTokens / 2
  {
    StopsAtFirstFinalAnswer(cfg, env, server, k);
  }

  /** A 400 that the loop does not retry ends the call with at most 300
      characters of its body. */
  lemma Final400Fails(cfg: PocCfg, env: Env, server: Request -> Response, k: nat)
    requires GetPocApiKey(env).Some? && cfg.retries >= 0
    requires k < CallLLM(cfg, env, server).Attempts()
    requires var r := CallLLM(cfg, env, server);
             var resp := server(r.requests[k]);
             && resp.status == 400
             && !(ContainsAny(Lower(resp.body), TransientMarkers) && k < cfg.retries)
             && !(ContainsAny(Lower(resp.body), TokenLimitMarkers) && k < cfg.retries
                  && r.requests[k].maxTokens > DownshiftFloor)
    ensures var r := CallLLM(cfg, env, server);
            var resp := server(r.requests[k]);
            && r.Attempts() == k + 1
            && r.result == Failure(Deterministic400(ResolvePocProvider(env), Take(resp.body, DetailLimit)))
  {
    StopsAtFirstFinalAnswer(cfg, env, server, k);
  }

  /** Any other status outside 2xx ends the call with the whole body, at
      whatever attempt it comes. */
  lemma OtherStatusFails(cfg: PocCfg, env: Env, server: Request -> Response, k: nat)
    requires GetPocApiKey(env).Some? && cfg.retries >= 0
    requires k < CallLLM(cfg, env, server).Attempts()
    requires var status := server(CallLLM(cfg, env, server).requests[k]).status;
             !IsOk(status) && !IsThrottleStatus(status) && status != 400
    ensures var r := CallLLM(cfg, env, server);
            var resp := server(r.requests[k]);
            && r.Attempts() == k + 1
            && r.result == Failure(UnexpectedStatus(ResolvePocProvider(env), resp.status, resp.body))
  {
    StopsAtFirstFinalAnswer(cfg, env, server, k);
  }

  /** A 2xx answer without content is retried after 1000 ms with the same
      `max_tokens` while budget remains, and otherwise ends the call with
      "Empty response after retries". */
  lemma EmptyAnswer(cfg: PocCfg, env: Env, server: Request -> Response, k: nat)
    requires GetPocApiKey(env).Some? && cfg.retries >= 0
    requires k < CallLLM(cfg, env, server).Attempts()
    requires var resp := server(CallLLM(cfg, env, server).requests[k]);
             IsOk(resp.status) && (resp.content.None? || IsBlank(resp.content.value))
    ensures var r := CallLLM(cfg, env, server);
            && (k < cfg.retries ==>
                  k + 1 < r.Attempts() && r.sleeps[k] == ShortDelay
                  && r.requests[k + 1].maxTokens == r.requests[k].maxTokens)
            && (k >= cfg.retries ==> r.Attempts() == k + 1 && r.result == Failure(EmptyResponse))
  {
    StopsAtFirstFinalAnswer(cfg, env, server, k);
  }

  // ---------------------------------------------------------------------
  // The max_tokens trace.

  predicate IsTokenChain(t: seq<int>) {
    forall i :: 0 < i < |t| ==> TokenStep(t[i - 1], t[i])
  }

  /** `max_tokens` never increases within a call, and never drops below the
      smaller of its start value and 1024 (half of just above 2048). */
  lemma {:induction false} TokensNeverIncrease(t: seq<int>)
    requires |t| > 0 && IsTokenChain(t)
    ensures forall i, j :: 0 <= i <= j < |t| ==> t[j] <= t[i]
    ensures forall i :: 0 <= i < |t| ==> t[i] >= (if t[0] < 1024 then t[0] else 1024)
  {
    if |t| > 1 {
      var s := t[..|t| - 1];
      assert IsTokenChain(s) by {
        forall i | 0 < i < |s|
          ensures TokenStep(s[i - 1], s[i])
        {
          assert s[i - 1] == t[i - 1];
        }
      }
      TokensNeverIncrease(s);
      assert TokenStep(t[|t| - 2], t[|t| - 1]);
    }
  }

  /** From 4096 there is at most one downshift: every request carries 4096 or
      2048, and once 2048 has been sent it stays. */
  lemma {:induction false} DownshiftFrom4096AtMostOnce(t: seq<int>)
    requires |t| > 0 && t[0] == 4096 && IsTokenChain(t)
    ensures forall i :: 0 <= i < |t| ==> t[i] == 4096 || t[i] == 2048
    ensures forall i, j :: 0 <= i <= j < |t| && t[i] == 2048 ==> t[j] == 2048
  {
    if |t| > 1 {
      var s := t[..|t| - 1];
      assert IsTokenChain(s) by {
        forall i | 0 < i < |s|
          ensures TokenStep(s[i - 1], s[i])
        {
          assert s[i - 1] == t[i - 1];
        }
      }
      DownshiftFrom4096AtMostOnce(s);
      assert TokenStep(t[|t| - 2], t[|t| - 1]);
    }
  }

  /** The default configuration's call downshifts at most once. */
  lemma DefaultCallDownshiftsAtMostOnce(cfg: PocCfg, env: Env, server: Request -> Response)
    requires cfg.maxTokens == DefaultCfg.maxTokens
    ensures var t := CallLLM(cfg, env, server).MaxTokensSent();
            && (forall i :: 0 <= i < |t| ==> t[i] == 4096 || t[i] == 2048)
            && (forall i, j :: 0 <= i <= j < |t| && t[i] == 2048 ==> t[j] == 2048)
  {
    var t := CallLLM(cfg, env, server).MaxTokensSent();
    if |t| > 0 {
      DownshiftFrom4096AtMostOnce(t);
    }
  }

  // ---------------------------------------------------------------------
  // Worked scenarios with literal provider bodies.

  /** A lowercase ASCII string is its own lowercase form. */
  lemma LowerOfLower(s: string)
    requires forall i :: 0 <= i < |s| ==> LowerKeeps(s[i])
    ensures Lower(s) == s
  {
  }

  /** No marker containing a character the text lacks can occur in it. */
  lemma MissingCharExcludes(s: string, markers: seq<string>, c: char)
    requires forall i :: 0 <= i < |s| ==> s[i] != c
    requires forall k :: 0 <= k < |markers| ==> c in markers[k]
    ensures !ContainsAny(s, markers)
  {
  }

  /** A 400 "invalid model" fails on the first attempt. */
  lemma InvalidModelFailsFast(cfg: PocCfg, env: Env, server: Request -> Response)
    requires GetPocApiKey(env).Some? && cfg.retries >= 0
    requires forall req: Request :: req.attempt == 0 ==> server(req) == Response(400, "invalid model", None)
    ensures CallLLM(cfg, env, server).result
         == Failure(Deterministic400(ResolvePocProvider(env), "invalid model"))
    ensures CallLLM(cfg, env, server).Attempts() == 1
  {
    var body := "invalid model";
    LowerOfLower(body);
    MissingCharExcludes(body, TransientMarkers, 'r');
    MissingCharExcludes(body, TokenLimitMarkers, 't');
    DeterministicFailsFast(cfg, env, server, Response(400, body, None));
  }

  /** A provider body reporting a rate limit. */
  const RateLimitText := "rate limit" + " exceeded"

  /** A provider body reporting a token limit. */
  const ContextLengthText := "maximum " + "context length" + " exceeded"

  /** A 400 "rate limit exceeded" is retried after 3000 ms. */
  lemma RateLimit400Retried(cfg: PocCfg, env: Env, server: Request -> Response)
    requires GetPocApiKey(env).Some? && cfg.retries >= 1
    requires forall req: Request :: req.attempt == 0 ==> server(req) == Response(400, RateLimitText, None)
    ensures CallLLM(cfg, env, server).Attempts() >= 2
    ensures CallLLM(cfg, env, server).sleeps[0] == 3000
  {
    RateLimitBody();
    TransientIsRetried(cfg, env, server, Response(400, RateLimitText, None));
  }

  /** "rate limit exceeded" matches a transient marker. */
  lemma RateLimitBody()
    ensures ContainsAny(Lower(RateLimitText), TransientMarkers)
  {
    LowerFindsAnyCase("", "rate limit", " exceeded", "rate limit");
    assert "" + "rate limit" == "rate limit";
    assert Contains(Lower(RateLimitText), TransientMarkers[0]);
  }

  const TitleCaseRateLimitText := "Rate Limit" + " Exceeded"

  /** The provider's usual spelling "Rate Limit Exceeded" is transient too:
      the marker is matched whatever the case of its letters. */
  lemma TitleCaseRateLimitBody()
    ensures ContainsAny(Lower(TitleCaseRateLimitText), TransientMarkers)
  {
    var w := "Rate Limit";
    var m := "rate limit";
    forall k | 0 <= k < |m|
      ensures w[k] == m[k] || w[k] == UpperAscii(m)[k]
    {
    }
    LowerFindsAnyCase("", w, " Exceeded", m);
    assert "" + w == w;
    assert Contains(Lower(TitleCaseRateLimitText), TransientMarkers[0]);
  }

  /** A 400 "Rate Limit Exceeded" at any attempt with budget left is backed
      off by 3000 * 2^attempt. */
  lemma TitleCaseRateLimitRetried(cfg: PocCfg, env: Env, server: Request -> Response, k: nat)
    requires GetPocApiKey(env).Some? && cfg.retries >= 0
    requires k < CallLLM(cfg, env, server).Attempts() && k < cfg.retries
    requires server(CallLLM(cfg, env, server).requests[k]) == Response(400, TitleCaseRateLimitText, None)
    ensures k + 1 < CallLLM(cfg, env, server).Attempts()
    ensures CallLLM(cfg, env, server).sleeps[k] == BackoffDelay(k)
  {
    TitleCaseRateLimitBody();
    Transient400BacksOff(cfg, env, server, k);
  }

  /** A 400 "maximum context length exceeded" with the default 4096 tokens is
      retried with 2048. */
  lemma ContextLengthHalvesDefault(cfg: PocCfg, env: Env, server: Request -> Response)
    requires GetPocApiKey(env).Some? && cfg.retries >= 1 && cfg.maxTokens == 4096
    requires forall req: Request :: req.attempt == 0 ==>
               server(req) == Response(400, ContextLengthText, None)
    ensures CallLLM(cfg, env, server).Attempts() >= 2
    ensures CallLLM(cfg, env, server).requests[1].maxTokens == 2048
    ensures CallLLM(cfg, env, server).sleeps[0] == 1000
  {
    ContextLengthBody();
    TokenLimitDownshifts(cfg, env, server, Response(400, ContextLengthText, None));
  }

  /** The downshift is not limited to one retry: from 16384 with three
      retries, a provider that keeps answering "maximum context length
      exceeded" sees 16384, 8192, 4096 and 2048, and the call then fails as a
      deterministic 400. */
  lemma ContextLengthHalvesRepeatedly(cfg: PocCfg, env: Env, server: Request -> Response)
    requires GetPocApiKey(env).Some? && cfg.retries == 3 && cfg.maxTokens == 16384
    requires forall req: Request :: server(req) == Response(400, ContextLengthText, None)
    ensures CallLLM(cfg, env, server).MaxTokensSent() == [16384, 8192, 4096, 2048]
    ensures CallLLM(cfg, env, server).sleeps == [1000, 1000, 1000]
    ensures CallLLM(cfg, env, server).result
         == Failure(Deterministic400(ResolvePocProvider(env), ContextLengthText))
  {
    ContextLengthBody();
    var ep := EndpointFor(env);
    var r3 := RunFrom(ep, server, 3, 3, 2048);
    assert r3.result == Failure(Deterministic400(ep.provider, Take(ContextLengthText, DetailLimit)));
    var r2 := RunFrom(ep, server, 3, 2, 4096);
    var r1 := RunFrom(ep, server, 3, 1, 8192);
    var r0 := RunFrom(ep, server, 3, 0, 16384);
    assert r2.requests == [Request(2, ep.url, ep.apiKey, ep.model, 4096)] + r3.requests;
    assert r1.requests == [Request(1, ep.url, ep.apiKey, ep.model, 8192)] + r2.requests;
    assert r0.requests == [Request(0, ep.url, ep.apiKey, ep.model, 16384)] + r1.requests;
    assert r0.MaxTokensSent() == [16384, 8192, 4096, 2048];
  }

  /** How "maximum context length exceeded" classifies: a token limit, and
      nothing transient. */
  lemma ContextLengthBody()
    ensures ContainsAny(Lower(ContextLengthText), TokenLimitMarkers)
    ensures !ContainsAny(Lower(ContextLengthText), TransientMarkers)
  {
    ContextLengthIsTokenLimit();
    ContextLengthNotTransient();
  }

  lemma ContextLengthIsTokenLimit()
    ensures ContainsAny(Lower(ContextLengthText), TokenLimitMarkers)
  {
    LowerFindsAnyCase("maximum ", "context length", " exceeded", "context length");
    assert Contains(Lower(ContextLengthText), TokenLimitMarkers[1]);
  }

  /** Every transient marker has an 'r', and the text has none in either
      case. */
  lemma ContextLengthNotTransient()
    ensures !ContainsAny(Lower(ContextLengthText), TransientMarkers)
  {
    ContextLengthLacksR();
    LowerLacks(ContextLengthText, 'r');
    MissingCharExcludes(Lower(ContextLengthText), TransientMarkers, 'r');
  }

  lemma ContextLengthLacksR()
    ensures Lacks(ContextLengthText, 'r') && Lacks(ContextLengthText, 'R')
  {
    PartsLackR();
    LacksConcat("maximum ", "context length", " exceeded", 'r');
    LacksConcat("maximum ", "context length", " exceeded", 'R');
  }

  lemma PartsLackR()
    ensures Lacks("maximum ", 'r') && Lacks("maximum ", 'R')
    ensures Lacks("context length", 'r') && Lacks("context length", 'R')
    ensures Lacks(" exceeded", 'r') && Lacks(" exceeded", 'R')
  {
  }

  predicate Lacks(s: string, c: char) {
    forall i :: 0 <= i < |s| ==> s[i] != c
  }

  lemma LacksConcat(a: string, b: string, c: string, ch: char)
    requires Lacks(a, ch) && Lacks(b, ch) && Lacks(c, ch)
    ensures Lacks(a + b + c, ch)
  {
    var s := a + b + c;
    forall i | 0 <= i < |s|
      ensures s[i] != ch
    {
      if i < |a| {
        assert s[i] == a[i];
      } else if i < |a| + |b| {
        assert s[i] == b[i - |a|];
      } else {
        assert s[i] == c[i - |a| - |b|];
      }
    }
  }

  /** Lowercasing cannot create a lowercase letter other than 'k' that the
      text had in neither case. */
  lemma LowerLacks(s: string, ch: char)
    requires 'a' <= ch <= 'z' && ch != 'k'
    requires Lacks(s, ch) && Lacks(s, (ch as int - 32) as char)
    ensures Lacks(Lower(s), ch)
  {
  }
}
