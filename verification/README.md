# SolAudit PoC generator and submission endpoint — a Dafny model

SolAudit is an agent that audits Solana programs. It finds vulnerabilities,
writes patches, and asks an LLM for a proof-of-concept (PoC) test per finding.
This project models four pieces of it. The three patch scripts install their
TypeScript as string literals, and the model follows that final TypeScript:

- **Configuration of the PoC generator** (`PocConfig`). It selects the LLM
  provider (Kimi Code or Moonshot), the endpoint, the provider's own API key
  and the model name. It also reads the numeric settings through `safeInt`,
  which models `parseInt(v, 10)` (`Decimal`).
- **`callLLM`** (`CallLlm`, with properties in `CallLlmProperties`). It sends
  one chat-completion call and retries it:
  - a 429 or 5xx answer gets exponential backoff;
  - a 400 is classified case-insensitively as transient, token-limit or
    deterministic;
  - a token-limit 400 halves `max_tokens`;
  - an empty answer is retried.

  The provider is a function from the request to its answer. The request
  carries the attempt number, so the function doubles as a scripted sequence
  of answers. The call returns its result, the requests it sent, and the
  delays it slept.
- **The dispatch loop** (`Dispatch`, `PocArtifact`). Each finding is matched
  with its enrichment record and its patch. A cooldown runs before every
  finding but the first, and one PoC is generated per finding. Each PoC's run
  command selects its test by the token `PoC#<classId>`.
- **The submission endpoint** `GET /api/audits/[id]/submission`
  (`Submission`). It extracts the PR link and the writeup link from a job's
  runs and artifacts, decides readiness, and names what is missing. The
  module also holds the gist filename and description of a writeup.

The scripts' own `replace_in` text transform is modelled in `ReplaceIn`.
Shared pieces live in `Wrappers` (Option/Result), `Text` (substring search,
JavaScript lowercasing and whitespace, slicing) and `Seqs` (first-match
search).

The environment is a `map<string, string>`. A variable is "set" in the
JavaScript sense when it is present and not empty.

Where the code and its comments disagree, the model follows the code:

- **Downshift test.** The token-limit downshift tests `maxTokens > 2048`
  before halving. So 4095 becomes 2047, below the floor.
- **Repeated halving.** The comment at fix-poc-review.py:230 and the summary
  line at fix-poc-review.py:320 both say the downshift "retries once". The
  code halves again on every token-limit 400 while the value stays above 2048
  and retries remain. `ContextLengthHalvesRepeatedly` shows 16384, 8192,
  4096, 2048. From the default 4096 the promise does hold
  (`DefaultCallDownshiftsAtMostOnce`).
- **Empty answers.** An empty answer is retried out of the same `retries`
  budget as the other retries, not on top of it.

## Model

| member | source | states |
|---|---|---|
| Text.Lower | fix-poc-review.py:219 | `toLowerCase()` as modelled here keeps the length, maps each ASCII capital to its lowercase letter (code + 32) and the Kelvin sign to 'k', keeps every other character, and leaves no capital in the result |
| Text.LowerFindsAnyCase | fix-poc-review.py:219-223 | a lowercase ASCII marker is found in the lowercased body however the body capitalises it, letter by letter ("Rate Limit", "RATE LIMIT", "rate limit") |
| Text.IndexOf | fix-poc-gen.py:6-9 | `old in content` holds exactly when a first occurrence exists, and the index returned is the least one |
| Text.TrimStart | fix-poc-review.py:99 | what `parseInt` skips: the result is a suffix that does not start with JavaScript whitespace, and what was dropped is all whitespace |
| Text.Take | fix-poc-review.py:213 | `slice(0, 300)`: a prefix of the body, of length at most 300, equal to the body when shorter |
| Decimal.IntToString | fix-poc-review.py:268 | an integer in a template literal: a minus sign exactly for negatives, then decimal digits whose value is the magnitude |
| Decimal.DigitPrefix | fix-poc-review.py:99 | the digits `parseInt` reads: the longest all-digit prefix |
| Decimal.ParseInt | fix-poc-review.py:99 | `parseInt(v, 10)`: a number exactly when, after the leading whitespace, a digit comes first or right after one sign, so never without a digit; text that starts with a digit is a non-negative number, and text that starts with '-' and a digit a non-positive one |
| Decimal.ParseSigned | fix-poc-review.py:99 | after the whitespace, a number exactly when a digit comes first or right after one sign; negative only after '-' |
| Decimal.ParseIntRoundTrip | fix-poc-review.py:97-101 | `parseInt` of any integer written in decimal, after leading whitespace and before any text that does not start with a digit, is that integer |
| Decimal.ParseIntSignedDigits | fix-poc-review.py:99 | whitespace, at most one sign, a run of digits and text not starting with a digit read as the value of the digits, negated exactly after '-' |
| Decimal.ParseIntPlusLeadingZeros | fix-poc-review.py:99 | " +007" reads as 7: a plus sign and leading zeros are accepted |
| Decimal.ParseIntStopsAtHexPrefix | fix-poc-review.py:99 | "-0x1" reads as 0: reading stops at the first non-digit |
| Decimal.ParseIntNoDigits | fix-poc-review.py:99-100 | text without a digit is NaN, so `Number.isFinite` fails |
| Decimal.IntToStringInjective | fix-poc-review.py:268 | different class IDs render differently |
| ReplaceIn.ReplaceFirst | fix-poc-gen.py:4-12 | `replace_in` reports True exactly when the pattern occurs; if it does not, the text is unchanged; if it does, the length changes by the length difference of pattern and replacement |
| ReplaceIn.ReplaceFirstSplits | apply-submission.py:8-16 | only the first occurrence is replaced; the text before and after it is kept |
| ReplaceIn.ReplaceFirstKeepsContext | fix-poc-review.py:8-16 | in prefix + pattern + suffix, with no occurrence starting in the prefix, the result is prefix + replacement + suffix, even when the suffix holds the pattern again |
| ReplaceIn.ApplyEdits | fix-poc-review.py:263-300 | one flag per edit; the first flag is whether the first pattern occurs in the original text; if no edit applies, the text is unchanged |
| ReplaceIn.ApplyEditsSingle | fix-poc-review.py:263-300 | a script of one edit is exactly one `replace_in` call: its flag and the text written back |
| ReplaceIn.EditRunsOnPreviousText | fix-poc-review.py:263-300 | edit i runs `replace_in` on the text edits 0..i−1 produced: its flag is whether its pattern occurs there, and the text after it is what that call writes back |
| ReplaceIn.ApplyEditsCompose | fix-poc-review.py:263-300 | running two groups of edits one after the other equals running them as one script, both in text and in reported flags; with ApplyEditsSingle this pins every script to its sequence of `replace_in` calls |
| PocConfig.ValueOrNull | fix-poc-review.py:80-81 | `process.env[k] \|\| null`: present exactly when the variable is set, and then its value |
| PocConfig.ResolvePocProvider | fix-poc-review.py:65-70 | a lowercased `POC_PROVIDER` of `kimi_code` or `moonshot` wins; otherwise Kimi Code exactly when `KIMI_CODE_API_KEY` is set |
| PocConfig.OverrideWins | fix-poc-review.py:66-67 | an override in any letter case selects its provider whatever keys are present |
| PocConfig.GetPocApiUrl | fix-poc-review.py:72-76 | the Kimi Code URL exactly when Kimi Code is resolved, the Moonshot URL exactly when Moonshot is |
| PocConfig.EndpointFollowsProvider | fix-poc-review.py:171-175 | two environments that resolve to the same provider get the same URL and the same label |
| PocConfig.GetPocApiKey | fix-poc-review.py:78-82 | a key exists exactly when the resolved provider's own variable is set, and it is that variable's value |
| PocConfig.NoCrossFallback | fix-poc-review.py:78-82 | with Kimi Code chosen explicitly and its key unset there is no key, even when a Moonshot key is present |
| PocConfig.AutoKimiCodeHasKey | fix-poc-review.py:68-69 | automatic selection picks Kimi Code only with its key present |
| PocConfig.GetPocModel | fix-poc-review.py:84-86 | never empty; `LLM_POC_MODEL` if set, else `MOONSHOT_MODEL` if set, else `kimi-k2.5` |
| PocConfig.ModelIgnoresProvider | fix-poc-review.py:84-86 | changing the provider override or either key leaves the model name as it was |
| PocConfig.SafeInt | fix-poc-review.py:97-101 | the fallback when the variable is unset, empty or not a number; otherwise the parsed integer (never NaN) |
| PocConfig.SafeIntReadsNumber | fix-poc-review.py:97-101 | a variable holding a number, possibly padded in front and followed by other text, yields that number |
| PocConfig.SafeIntFallsBack | fix-poc-review.py:97-101 | a variable holding no digit yields the fallback |
| PocConfig.LoadPocCfg | fix-poc-review.py:88-95 | with none of the six variables set, the defaults 4096, 120000, 2, 1, 10, 2000; `retries` and `maxTokens` read through `safeInt` |
| PocConfig.MalformedSettingsLoadDefaults | fix-poc-review.py:88-101 | settings holding no digits load the defaults, field by field |
| CallLlm.Message | fix-poc-review.py:173-255 | the thrown texts: the missing-key and HTTP texts name the provider label first (the empty-response text and the empty no-attempt text do not); the missing-key text ends with the provider name and ')'; the HTTP texts continue with the status and ': ', or with " 400 (deterministic): " |
| CallLlm.MessageCarriesBody | fix-poc-review.py:213-245 | each HTTP error message starts with the provider label and ends with the (truncated) body it carries |
| CallLlm.Classify | fix-poc-review.py:204-256 | one attempt, in both directions: a 429/5xx backs off 3000·2^attempt with budget left and otherwise fails with its status and at most 300 characters of body; a transient 400 with budget backs off; a token-limit 400, not transient, with budget and above 2048 halves `max_tokens`; every other 400 is "400 (deterministic)" with at most 300 characters; any other non-2xx fails with the whole body; a 2xx with absent or blank content is retried with budget and otherwise "Empty response after retries"; a 2xx with content returns it; retries happen only with budget left |
| CallLlm.RunFrom | fix-poc-review.py:179-257 | the loop: between 1 and retries − attempt + 1 requests, numbered consecutively, all to the same endpoint; one sleep between consecutive requests; the first request carries the given `max_tokens`; success returns the last answer's non-blank content |
| CallLlm.RunFromTrace | fix-poc-review.py:179-257 | the loop follows its answers step by step: the step of every answer but the last is a retry, and the next sleep and `max_tokens` are that step's; the last answer's step ends the loop, and its text or error is the result |
| CallLlm.StepsGiveTraceFacts | fix-poc-review.py:204-253 | in a call that follows its answers, `max_tokens` only stays or halves from above 2048, each change after a 1000 ms sleep; each sleep is 1000 ms or 3000·2^attempt; every answer before the last could be retried |
| CallLlm.CallLLM | fix-poc-review.py:169-257 | a missing key fails before any request with the provider-specific error; otherwise 1 to retries + 1 requests to the resolved URL with the provider's own key and the configured model, starting at the configured `max_tokens`; the call follows its answers step by step; sleeps are 1000 or 3000·2^i |
| CallLlm.Pow2Add | fix-poc-review.py:206 | `Math.pow(2, a + b)` is `Math.pow(2, a) · Math.pow(2, b)`, so each further attempt doubles the delay |
| CallLlmProperties.BackoffSchedule | fix-poc-review.py:206 | the delays 3000·2^i for consecutive attempts |
| CallLlmProperties.ThrottledRun | fix-poc-review.py:205-211 | while every attempt before the last is throttled, the loop uses every attempt, sleeps the backoff schedule, keeps `max_tokens`, and ends as the last attempt decides |
| CallLlmProperties.ThrottledThenSucceeds | fix-poc-review.py:205-257 | 429/5xx until the last attempt, then a real answer: that answer, after retries + 1 requests and sleeps 3000, 6000, 12000, … |
| CallLlmProperties.ThrottledThroughout | fix-poc-review.py:205-213 | throttled throughout: retries + 1 requests, the backoff schedule, and an error with the last status and at most 300 characters of the last body |
| CallLlmProperties.EmptyRun | fix-poc-review.py:250-255 | empty answers throughout the loop: every attempt used, 1000 ms between them, then "Empty response after retries" |
| CallLlmProperties.EmptyThroughout | fix-poc-review.py:248-256 | the same for the whole call: retries + 1 requests, each retry after 1000 ms |
| CallLlmProperties.MissingKeyBeforeAnyRequest | fix-poc-review.py:170-173 | no request is sent without a key; the message names the provider label and `POC_PROVIDER=<provider>` |
| CallLlmProperties.DeterministicFailsFast | fix-poc-review.py:239-240 | a 400 with neither kind of marker fails on the first attempt, with no sleep |
| CallLlmProperties.TransientWithoutBudgetIsDeterministic | fix-poc-review.py:222-240 | with no retry left, any 400, even a transient one, fails as deterministic |
| CallLlmProperties.OtherStatusFailsFast | fix-poc-review.py:243-246 | any other non-2xx status fails on the first attempt with the whole body |
| CallLlmProperties.TransientIsRetried | fix-poc-review.py:222-227 | a transient 400 with budget left is retried after 3000 ms with the same `max_tokens` |
| CallLlmProperties.TokenLimitDownshifts | fix-poc-review.py:230-236 | a token-limit 400, not transient, above 2048 with budget left, is retried after 1000 ms with `max_tokens` halved |
| CallLlmProperties.TokenLimitAtFloorFails | fix-poc-review.py:231-240 | at or below 2048 a non-transient 400 is deterministic |
| CallLlmProperties.StopsAtFirstFinalAnswer | fix-poc-review.py:179-257 | at any attempt, the call goes on past an answer exactly when that answer's step is a retry, with that step's sleep and `max_tokens`; otherwise that answer's text or error is the result |
| CallLlmProperties.ContentEndsCall | fix-poc-review.py:248-257 | a 2xx answer with content ends the call with that content, at whatever attempt it comes |
| CallLlmProperties.FirstAnswerReturned | fix-poc-review.py:248-257 | a first answer with content is returned after one request and no sleep |
| CallLlmProperties.ThrottleBacksOff | fix-poc-review.py:205-211 | a 429/5xx at attempt k with budget left is followed by a sleep of 3000·2^k and a request with the same `max_tokens`, whatever came before |
| CallLlmProperties.ThrottleWithoutBudgetFails | fix-poc-review.py:205-213 | a 429/5xx with no budget left ends the call with its status and at most 300 characters of its body, whatever came before |
| CallLlmProperties.Transient400BacksOff | fix-poc-review.py:222-227 | a transient 400 at attempt k with budget left is followed by a sleep of 3000·2^k and the same `max_tokens` |
| CallLlmProperties.TokenLimit400Halves | fix-poc-review.py:230-236 | a token-limit 400, not transient, at attempt k with budget left and `max_tokens` above 2048, is followed by 1000 ms and half the `max_tokens` |
| CallLlmProperties.Final400Fails | fix-poc-review.py:216-240 | a 400 the loop does not retry ends the call as deterministic with at most 300 characters of body, at any attempt |
| CallLlmProperties.OtherStatusFails | fix-poc-review.py:243-246 | any other non-2xx ends the call with the whole body, at any attempt |
| CallLlmProperties.EmptyAnswer | fix-poc-review.py:248-256 | a 2xx without content is retried after 1000 ms with the same `max_tokens` while budget remains, and otherwise ends the call with "Empty response after retries" |
| CallLlmProperties.TokensNeverIncrease | fix-poc-review.py:177-233 | along a call `max_tokens` never increases, and never drops below the smaller of its start and 1024 |
| CallLlmProperties.DownshiftFrom4096AtMostOnce | fix-poc-review.py:230-233 | a trace starting at 4096 holds only 4096 and 2048, and 2048 stays once reached |
| CallLlmProperties.DefaultCallDownshiftsAtMostOnce | fix-poc-review.py:89-233 | with the default 4096, every call downshifts at most once |
| CallLlmProperties.LowerOfLower | fix-poc-review.py:219 | a lowercase ASCII body is its own lowercase form |
| CallLlmProperties.MissingCharExcludes | fix-poc-review.py:222-231 | no marker containing a character the body lacks can match |
| CallLlmProperties.InvalidModelFailsFast | fix-poc-review.py:239 | a 400 "invalid model" fails on the first attempt as deterministic |
| CallLlmProperties.RateLimit400Retried | fix-poc-review.py:221-227 | a 400 "rate limit exceeded" is retried after 3000 ms |
| CallLlmProperties.ContextLengthHalvesDefault | fix-poc-review.py:230-236 | a 400 "maximum context length exceeded" at 4096 is retried with 2048 after 1000 ms |
| CallLlmProperties.ContextLengthHalvesRepeatedly | fix-poc-review.py:230-236 | from 16384 with three retries, the same 400 each time yields requests at 16384, 8192, 4096, 2048, then a deterministic failure |
| CallLlmProperties.ContextLengthBody | fix-poc-review.py:222-231 | "maximum context length exceeded" matches a token-limit marker and no transient marker |
| CallLlmProperties.RateLimitBody | fix-poc-review.py:222-223 | "rate limit exceeded" matches a transient marker |
| CallLlmProperties.TitleCaseRateLimitBody | fix-poc-review.py:219-223 | "Rate Limit Exceeded" matches a transient marker |
| CallLlmProperties.TitleCaseRateLimitRetried | fix-poc-review.py:219-227 | a 400 "Rate Limit Exceeded" at attempt k with budget left is backed off by 3000·2^k |
| CallLlmProperties.LowerLacks | fix-poc-review.py:219 | lowercasing creates no lowercase letter other than 'k' that the text had in neither case |
| Seqs.FirstIndexFrom | fix-poc-gen.py:219-222 | the index of the first element satisfying the predicate, or none when none does |
| Seqs.Find | fix-poc-gen.py:219-222 | `xs?.find(p)`: absent exactly when the list is absent or nothing matches; otherwise an element that matches, with none before it |
| Dispatch.FindEnrichment | fix-poc-gen.py:219-221 | a found enrichment has the finding's title or contains its class name |
| Dispatch.FindPatch | fix-poc-gen.py:222 | a found patch is for the finding's file |
| Dispatch.EnrichmentIsFirstMatch | fix-poc-gen.py:219-221 | the first matching enrichment is the one chosen |
| Dispatch.EmptyClassNameMatchesFirst | fix-poc-gen.py:220 | a finding with an empty class name matches the first enrichment, since every title contains "" |
| Dispatch.PatchIsFirstForFile | fix-poc-gen.py:222 | the first patch for the finding's file is the one chosen |
| Dispatch.Schedule | fix-poc-gen.py:215-218 | the sequential run over n findings: Generate(i) at position 2i, Sleep(delay) at 2i − 1 for i > 0, 2n − 1 events |
| Dispatch.CooldownBeforeEveryLaterItem | fix-poc-gen.py:217-218 | every generation but the first follows a sleep of the configured delay; nothing comes before the first; every sleep is followed by a generation |
| Dispatch.GeneratePocs | fix-poc-gen.py:214-226 | one result per finding, in input order, each from the finding with its first matching enrichment and patch; the events follow the schedule, whatever the results |
| PocArtifact.RunCommand | fix-poc-review.py:267-269 | the Anchor command is the `anchor test` prefix and a quoted pattern; the native command is the `cargo test-sbf poc_` prefix and ends with '_' and the safe name |
| PocArtifact.SuiteTitle | fix-poc-review.py:300 | the fallback suite title starts with the class-ID token, then ':', then after a space the class name |
| PocArtifact.AnchorCommandSelectsOwnSuite | fix-poc-review.py:267-268 | the Anchor run command quotes exactly `PoC#<classId>`, a regex-free pattern that selects the fallback suite of its own finding |
| PocArtifact.CargoCommandNamesClass | fix-poc-review.py:269 | the native run command's test filter starts with the class ID, which reads back whatever the safe name |
| PocArtifact.RunCommandIgnoresTitle | fix-poc-review.py:267-269 | the run command does not depend on the finding's title |
| PocArtifact.GrepTokenIsLiteral | fix-poc-review.py:268 | the token has no regular-expression metacharacter |
| PocArtifact.GrepTokenSelectsLongerIds | fix-poc-review.py:268 | the token of class a also selects the suite of class 10a + d: `--grep` matches a substring |
| PocArtifact.Class4SelectsClass42 | fix-poc-review.py:288 | `PoC#4` selects the suite titled `PoC#42: …`, the prompt's own example |
| PocArtifact.AnchoredGrepSelectsOnlyOwnClass | fix-poc-review.py:268-300 | the pattern `^PoC#<a>:` selects the fallback suite of class b exactly when a = b; it selects by class, not by finding |
| PocArtifact.CorrectedCommandQuotesAnchoredPattern | fix-poc-review.py:267-269 | the corrected Anchor command quotes the anchored pattern; the native command is unchanged |
| Submission.OrElse | apply-submission.py:298 | `a \|\| b`: truthy exactly when either is, and `a` when `a` is truthy |
| Submission.LastTruthy | apply-submission.py:260-265 | null exactly when no value is truthy; otherwise a truthy value with no truthy value after it |
| Submission.ExtractRunUrls | apply-submission.py:257-265 | the loop leaves in each variable the last truthy value of its own field, independently; null without runs |
| Submission.IsWriteupArtifact | apply-submission.py:269-273 | every artifact the writeup may be read from is one the query selects |
| Submission.QueryArtifacts | apply-submission.py:224-231 | keeps exactly the artifacts with purpose "bounty_submission", type ADVISORY, or a name containing "submission": each such artifact as often as the job has it, and nothing else |
| Submission.FindWriteupArtifact | apply-submission.py:269-273 | a found artifact is one of the job's, and its name contains "submission" or its purpose is "bounty_submission" |
| Submission.FindIsFirst | apply-submission.py:269-273 | the first artifact with that name or purpose is the one chosen |
| Submission.QueryKeepsWriteupArtifact | apply-submission.py:224-273 | the query drops no candidate: searching what it selected finds the same artifact as searching all artifacts |
| Submission.Summarize | apply-submission.py:283-290 | one summary per stored finding, in order, with its severity, title, class, confidence and proof status |
| Submission.NotSucceededError | apply-submission.py:248 | the 400 text: "Audit is ", then the job's status, then " — must be SUCCEEDED to submit" |
| Submission.NotSucceededErrorNamesStatus | apply-submission.py:248 | different statuses give different 400 texts |
| Submission.Message | apply-submission.py:303-305 | the ready text when both links exist, otherwise "Missing: PR link", "Missing: writeup link" or "Missing: PR link + writeup link" by which is absent |
| Submission.GetSubmission | apply-submission.py:239-305 | 404 exactly for a missing job, 400 exactly for a status other than SUCCEEDED, carrying that status and the NotSucceededError text; otherwise ready exactly when the PR link and the writeup link are both non-empty; the PR and gist links are the last truthy ones over the runs (null without runs, the same values `ExtractRunUrls` computes), the R2 link is the signed key of the first writeup artifact (null without one), the writeup link prefers a truthy gist link, and the findings are the stored rows summarised in order with their count |
| Submission.NotSucceededExtractsNothing | apply-submission.py:243-252 | a job that has not succeeded gets a 400 with no links, whatever its runs, its artifacts or the signer |
| Submission.ReadyIff | apply-submission.py:282 | ready exactly when some run has a PR link and either some run has a gist link or the writeup artifact signs to a non-empty URL |
| Submission.MissingMessageNamesGaps | apply-submission.py:303-305 | when not ready, the message mentions the PR link exactly when it is missing, and the writeup link exactly when it is missing |
| Submission.MissingTextNamesGaps | apply-submission.py:305 | each "Missing:" text mentions the PR link exactly when it is absent, and the writeup link exactly when it is absent |
| Submission.GistPreferred | apply-submission.py:298 | when a run carries a gist link, the returned writeup link is the last one and does not depend on the signer |
| Submission.WriteupFilename | apply-submission.py:59 | the gist filename is `solaudit-`, the owner, '-', the name and `-writeup.md`, each at its position |
| Submission.FilenameSeparatesNames | apply-submission.py:59 | for one owner, different repository names give different filenames |
| Submission.FilenameHyphenAmbiguity | apply-submission.py:59-60 | across owners the filename can collide ("a-b"/"c" and "a"/"b-c"), while the descriptions differ |
| Submission.WriteupDescription | apply-submission.py:60 | the description is the prefix, the owner, '/', and the name, each at its position |
| Submission.DescriptionRoundTrip | apply-submission.py:60 | the description `[SolAudit] Security audit writeup for <owner>/<name>` gives back owner and name |

## Left out

- HTTP and transport: `fetch`, abort timeouts (`timeoutMs`), `res.json()` and `res.text()` failures. The `catch` clause of the `try` at fix-poc-review.py:183 is not part of this model. Every `throw` inside that `try` is treated as ending the call.
- CallLlm.CallLLM: the error for a negative `retries` is modelled as `NoAttempt`. With a negative count the loop never runs, and the code after the loop is not part of this model.
- CallLlm.Classify: only string `content` is modelled. A non-string `content` from the JSON body is left out.
- Text.Lower: covers ASCII letters and U+212A KELVIN SIGN, the one non-ASCII character whose lowercase form is an ASCII letter. Full Unicode lowercasing is left out. It cannot create or destroy a match of an ASCII marker that does not end in 'i', which holds for the eight markers at fix-poc-review.py:222 and :231. For a marker ending in 'i' it could: JavaScript lowers U+0130 to "i" followed by U+0307, which this model does not.
- Text.Take: cuts at code points. JavaScript `slice` cuts UTF-16 code units, which differs only for characters outside the Basic Multilingual Plane.
- Decimal.ParseInt: integers are unbounded. IEEE-754 rounding above 2^53 is left out, and so is the resulting `Infinity` for which `Number.isFinite` fails.
- Decimal.IntToString: integers are unbounded and always written in plain digits. JavaScript writes a number of magnitude 1e21 or more in exponent form (`1e+21`), and such a class ID would not read back as itself.
- PocConfig.LoadPocCfg: states the defaults and the `retries` and `maxTokens` fields. The other four fields follow the same `safeInt` pattern, and only `MalformedSettingsLoadDefaults` states them.
- Sleeping and wall-clock time: delays are recorded, not waited. The backoff is exact integer arithmetic (`3000·2^attempt`), whereas `Math.pow` works in floating point.
- Dispatch.GeneratePocs: `generateSinglePoC` is a total function parameter, so the model assumes it never throws. In the source a throw rejects `Promise.all` (fix-poc-gen.py:214), and the batch then returns no results at all.
- PocArtifact.AnchoredGrepSelectsOnlyOwnClass: the anchored pattern separates classes, not findings. The fallback title `PoC#<classId>: <className>…` (fix-poc-review.py:300) has no part unique to a finding, so two findings of one class in one project still select each other's suites.
- Concurrency: `pLimit` with a concurrency above 1 (fix-poc-gen.py:212) is left out. The loop is modelled sequentially, as with the default 1.
- `generateSinglePoC`, the program object, and how `toProcess` is chosen from the findings (`maxPocs`) are parameters or left out: their code is not shown.
- The superseded configuration and `callLLM` at fix-poc-gen.py:16-186 are left out. fix-poc-review.py replaces them.
- Prompt wording, console logging, and the progress-percentage and UI stage tables (apply-submission.py:113-191) are left out: they are text and presentation.
- Octokit gist creation, the orchestrator's publish step (apply-submission.py:83-107), Prisma queries and the ordering of findings by severity are left out. Storage signing is a function parameter, and a signer that throws is modelled as None. The 500 answer of the outer `catch` and API-key validation are left out too.
- Mocha's `--grep` is modelled only for a literal pattern, or `^` followed by a literal. That covers every pattern the model builds.
- The two Rust fixture programs are analyzer inputs, not repository logic.

## Findings

| source | as written | input that shows it | evidently intended | confidence | as-written member | corrected member |
|---|---|---|---|---|---|---|
| fix-poc-review.py:268 | `anchor test -- --grep "PoC#<classId>"`: Mocha treats the pattern as a regular expression matched anywhere in the title, so the token of class 4 is a prefix of `PoC#42: …` | class IDs 4 and 42 in the same Anchor project: the command for class 4 also runs class 42's suite | the run command selects only suites of its own class, the stability the summary at fix-poc-review.py:325 claims | medium, not executed | PocArtifact.GrepTokenSelectsLongerIds | PocArtifact.AnchoredGrepSelectsOnlyOwnClass |
