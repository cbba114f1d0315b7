/** Configuration of the PoC generator: which LLM provider to call, its
    endpoint, credential and model name, and the numeric settings read from
    the environment. The environment is an explicit map from variable name to
    value; JavaScript treats a variable as set when it is present and not the
    empty string. */
module PocConfig {
  import opened Wrappers
  import opened Text
  import opened Decimal

  type Env = map<string, string>

  /** `process.env[key]` is truthy. */
  predicate IsSet(env: Env, key: string) {
    key in env && env[key] != ""
  }

  /** `process.env[key] || null`. */
  function ValueOrNull(env: Env, key: string): (r: Option<string>)
    ensures r.Some? <==> IsSet(env, key)
    ensures r.Some? ==> r.value == env[key]
  {
    if IsSet(env, key) then Some(env[key]) else None
  }

  datatype Provider = KimiCode | Moonshot

  /** The value `POC_PROVIDER` takes to select a provider explicitly. */
  function ProviderName(p: Provider): string {
    match p
    case KimiCode => "kimi_code"
    case Moonshot => "moonshot"
  }

  /** The provider's name in log lines and error messages. */
  function ProviderLabel(p: Provider): string {
    match p
    case KimiCode => "Kimi Code"
    case Moonshot => "Moonshot"
  }

  /** The environment variable holding the provider's own API key. */
  function KeyVariable(p: Provider): string {
    match p
    case KimiCode => "KIMI_CODE_API_KEY"
    case Moonshot => "MOONSHOT_API_KEY"
  }

  const KimiCodeUrl := "https://api.kimi.com/coding/v1/chat/completions"
  const MoonshotUrl := "https://api.moonshot.ai/v1/chat/completions"
  const DefaultModel := "kimi-k2.5"

  /** `POC_PROVIDER` lowercased, or None when it is not in the environment. */
  function ExplicitProvider(env: Env): Option<string> {
    if "POC_PROVIDER" in env then Some(Lower(env["POC_PROVIDER"])) else None
  }

  /** `resolvePocProvider()`: a recognised explicit choice wins; otherwise Kimi
      Code exactly when its key is set. */
  function ResolvePocProvider(env: Env): (p: Provider)
    ensures ExplicitProvider(env) == Some("kimi_code") ==> p == KimiCode
    ensures ExplicitProvider(env) == Some("moonshot") ==> p == Moonshot
    ensures (ExplicitProvider(env) !in {Some("kimi_code"), Some("moonshot")})
            ==> (p == KimiCode <==> IsSet(env, "KIMI_CODE_API_KEY"))
  {
    var explicit := ExplicitProvider(env);
    if explicit == Some("kimi_code") then KimiCode
    else if explicit == Some("moonshot") then Moonshot
    else if IsSet(env, "KIMI_CODE_API_KEY") then KimiCode
    else Moonshot
  }

  /** An explicit override is honoured whatever credentials are present, and
      regardless of the case it is written in. */
  lemma OverrideWins(p: Provider, spelling: string, keys: Env)
    requires Lower(spelling) == ProviderName(p)
    ensures ResolvePocProvider(keys + map["POC_PROVIDER" := spelling]) == p
  {
  }

  /** `getPocApiUrl()`: the endpoint of the resolved provider. */
  function GetPocApiUrl(env: Env): (u: string)
    ensures u == KimiCodeUrl <==> ResolvePocProvider(env) == KimiCode
    ensures u == MoonshotUrl <==> ResolvePocProvider(env) == Moonshot
  {
    if ResolvePocProvider(env) == KimiCode then KimiCodeUrl else MoonshotUrl
  }

  /** The endpoint and the label are functions of the resolved provider alone:
      two environments that resolve alike agree on both. */
  lemma EndpointFollowsProvider(env1: Env, env2: Env)
    requires ResolvePocProvider(env1) == ResolvePocProvider(env2)
    ensures GetPocApiUrl(env1) == GetPocApiUrl(env2)
    ensures ProviderLabel(ResolvePocProvider(env1)) == ProviderLabel(ResolvePocProvider(env2))
  {
  }

  /** `getPocApiKey()`: the resolved provider's own variable, never the other
      provider's. */
  function GetPocApiKey(env: Env): (k: Option<string>)
    ensures k.Some? <==> IsSet(env, KeyVariable(ResolvePocProvider(env)))
    ensures k.Some? ==> k.value != "" && k.value == env[KeyVariable(ResolvePocProvider(env))]
  {
    ValueOrNull(env, KeyVariable(ResolvePocProvider(env)))
  }

  /** No cross-fallback: with Kimi Code selected explicitly and its key unset,
      there is no key, even when a Moonshot key is present. */
  lemma NoCrossFallback(env: Env, moonshotKey: string)
    requires ExplicitProvider(env) == Some("kimi_code")
    requires !IsSet(env, "KIMI_CODE_API_KEY")
    ensures GetPocApiKey(env[KeyVariable(Moonshot) := moonshotKey]) == None
  {
    var env' := env[KeyVariable(Moonshot) := moonshotKey];
    assert ExplicitProvider(env') == ExplicitProvider(env);
  }

  /** Automatic selection never picks a provider without a key for Kimi Code:
      a missing key under Kimi Code comes only from an explicit override. */
  lemma AutoKimiCodeHasKey(env: Env)
    requires ExplicitProvider(env) !in {Some("kimi_code"), Some("moonshot")}
    requires ResolvePocProvider(env) == KimiCode
    ensures GetPocApiKey(env) == Some(env["KIMI_CODE_API_KEY"])
  {
  }

  /** `getPocModel()`: the first set one of `LLM_POC_MODEL` and
      `MOONSHOT_MODEL`, else "kimi-k2.5"; never empty, and chosen the same way
      for both providers. */
  function GetPocModel(env: Env): (m: string)
    ensures m != ""
    ensures IsSet(env, "LLM_POC_MODEL") ==> m == env["LLM_POC_MODEL"]
    ensures !IsSet(env, "LLM_POC_MODEL") && IsSet(env, "MOONSHOT_MODEL") ==> m == env["MOONSHOT_MODEL"]
    ensures !IsSet(env, "LLM_POC_MODEL") && !IsSet(env, "MOONSHOT_MODEL") ==> m == DefaultModel
  {
    ValueOrNull(env, "LLM_POC_MODEL").GetOr(ValueOrNull(env, "MOONSHOT_MODEL").GetOr(DefaultModel))
  }

  /** The model name does not follow the provider: changing the provider
      override or the keys leaves it as it was. */
  lemma ModelIgnoresProvider(env: Env, provider: string, kimiKey: string, moonshotKey: string)
    ensures GetPocModel(env["POC_PROVIDER" := provider]["KIMI_CODE_API_KEY" := kimiKey]
                           ["MOONSHOT_API_KEY" := moonshotKey])
         == GetPocModel(env)
  {
    var env' := env["POC_PROVIDER" := provider]["KIMI_CODE_API_KEY" := kimiKey]["MOONSHOT_API_KEY" := moonshotKey];
    assert IsSet(env', "LLM_POC_MODEL") == IsSet(env, "LLM_POC_MODEL");
    assert IsSet(env', "MOONSHOT_MODEL") == IsSet(env, "MOONSHOT_MODEL");
  }

  /** `safeInt(key, fallback)`: the integer `parseInt` reads from the variable,
      or the fallback when the variable is unset, empty or not a number. */
  function SafeInt(env: Env, key: string, fallback: int): (n: int)
    ensures !IsSet(env, key) ==> n == fallback
    ensures IsSet(env, key) && ParseInt(env[key]).None? ==> n == fallback
    ensures IsSet(env, key) && ParseInt(env[key]).Some? ==> n == ParseInt(env[key]).value
  {
    if !IsSet(env, key) then fallback
    else match ParseInt(env[key])
      case None => fallback
      case Some(v) => v
  }

  /** A variable holding a decimal number, possibly padded with leading
      whitespace and followed by a unit or other text, yields that number. */
  lemma SafeIntReadsNumber(env: Env, key: string, fallback: int, ws: string, n: int, rest: string)
    requires IsBlank(ws)
    requires |rest| == 0 || !IsDigit(rest[0])
    ensures SafeInt(env[key := ws + IntToString(n) + rest], key, fallback) == n
  {
    var v := ws + IntToString(n) + rest;
    var e := env[key := v];
    assert e[key] == v && |v| > 0;
    ParseIntRoundTrip(ws, n, rest);
  }

  /** A variable holding no digit at all yields the fallback. */
  lemma SafeIntFallsBack(env: Env, key: string, fallback: int)
    requires key in env
    requires forall i :: 0 <= i < |env[key]| ==> !IsDigit(env[key][i])
    ensures SafeInt(env, key, fallback) == fallback
  {
    ParseIntNoDigits(env[key]);
  }

  /** `POC_CFG`. */
  datatype PocCfg = PocCfg(
    maxTokens: int,
    timeoutMs: int,
    retries: int,
    concurrency: int,
    maxPocs: int,
    interRequestDelayMs: int)

  const DefaultCfg := PocCfg(4096, 120000, 2, 1, 10, 2000)

  /** The variables `POC_CFG` reads. */
  const CfgVariables: set<string> := {
    "LLM_POC_MAX_TOKENS", "LLM_POC_TIMEOUT_MS", "LLM_POC_RETRIES",
    "LLM_POC_CONCURRENCY", "LLM_POC_MAX", "LLM_POC_DELAY_MS"}

  /** `POC_CFG` evaluated against an environment: each field its own variable
      through `safeInt`, with the documented defaults. */
  function LoadPocCfg(env: Env): (c: PocCfg)
    ensures (forall k :: k in CfgVariables ==> !IsSet(env, k)) ==> c == DefaultCfg
    ensures c.retries == SafeInt(env, "LLM_POC_RETRIES", 2)
    ensures c.maxTokens == SafeInt(env, "LLM_POC_MAX_TOKENS", 4096)
  {
    PocCfg(
      SafeInt(env, "LLM_POC_MAX_TOKENS", 4096),
      SafeInt(env, "LLM_POC_TIMEOUT_MS", 120000),
      SafeInt(env, "LLM_POC_RETRIES", 2),
      SafeInt(env, "LLM_POC_CONCURRENCY", 1),
      SafeInt(env, "LLM_POC_MAX", 10),
      SafeInt(env, "LLM_POC_DELAY_MS", 2000))
  }

  /** Malformed settings fall back field by field: an environment whose
      settings hold no digits loads the defaults. */
  lemma MalformedSettingsLoadDefaults(env: Env)
    requires forall k :: k in CfgVariables && k in env ==>
               forall i :: 0 <= i < |env[k]| ==> !IsDigit(env[k][i])
    ensures LoadPocCfg(env) == DefaultCfg
  {
    forall k, fb | k in CfgVariables
      ensures SafeInt(env, k, fb) == fb
    {
      if k in env {
        SafeIntFallsBack(env, k, fb);
      }
    }
  }
}
