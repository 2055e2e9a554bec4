# DevFlow review pipeline in Dafny

DevFlow reviews GitHub pull requests. GitHub posts a `pull_request` webhook
to the webhook router's `POST /github` route. `routes/index.ts` mounts that
router under `/webhooks`, and the backend's test scripts post to
`/api/v1/webhooks/github`; `app.ts` as it stands mounts no router, so the
modelled route is the handler itself, whatever prefix serves it. The route checks the `X-Hub-Signature-256`
header in production and dispatches on `X-GitHub-Event`. The webhook service
then finds or creates the sender's user, the repository and the pull request,
and opens a `pending` review. The review orchestrator moves that review to
`processing`, fetches the pull request and its changed files, builds one diff
text, and asks the language model for an analysis. It stores the result as
`completed` with a summary, a score and one comment per finding, or as
`failed` with the error's message.

The Dafny modules follow the backend's services:

| module | file | models |
|---|---|---|
| `GitHubService` | `github_service.dfy` | `githubService.ts`: the file filter, the diff text built by a loop, the 50,000-character cap, and error wrapping |
| `AIService` | `ai_service.dfy` | `aiService.ts`: the prompt, the two regular expressions written out as scans, shape validation, the score clamp, the fallback result, and error wrapping |
| `WebhookService` | `webhook_service.dfy` | `webhookService.ts`: the secret, the hex digest, `verifySignature` including `timingSafeEqual`'s length check, the get-or-create steps, and `handlePullRequestEvent` |
| `CodeAnalysisService` | `code_analysis_service.dfy` | `codeAnalysisService.ts`: `processReview` as a plan of review writes plus the imperative methods that carry it out against the store |
| `WebhookRoutes` | `webhook_routes.dfy` | `routes/webhooks.ts`: the verification gate, the event switch, the 500 catch block, and the health answer |
| `Database` | `database.dfy` | the Prisma-backed store as a class with maps keyed by GitHub id, with uniqueness and foreign-key failures |
| `Text`, `Js`, `Wrappers`, `GitHubTypes`, `ReviewTypes` | | JavaScript whitespace, `trim`, `split`, `toLowerCase` and `toString`; JSON values and thrown errors; the payload and result types |

The outside world enters as parameters:
- HMAC-SHA256, `JSON.parse` and `JSON.stringify` are function values;
- the Octokit calls return a result or an error;
- the chat completion returns a message or an error;
- the `Promise.all` race is a flag saying which fetch rejects first;
- a failing comment write is an optional position in the findings list.

The store is a `Database.Store` object whose methods change its maps in
place. The webhook service and the orchestrator are methods over that
object. Each method's postcondition gives the store's new state in terms of
pure plan functions, such as `CodeAnalysisService.PlannedFor` and
`CodeAnalysisService.Pipeline`, and the lemmas state the pipeline's promises
about those functions.

Some of what the code does differs from what its comments and names suggest.
The model follows the code:
- The signature is checked over `JSON.stringify(req.body)`, not over the
  bytes GitHub signed. `captureRawBody` is defined but never mounted.
- A non-empty signature of the wrong byte length makes `verifySignature`
  throw, so the route answers 500 instead of 401.
- When the model's answer contains no `{`…`}` span, the whole answer is
  parsed and returned without shape validation or score clamping.
- The review is written `completed` before its comments are stored. A
  failure while storing comments therefore turns a completed review into a
  `failed` one, and the comments already written stay. A malformed
  repository name is detected only after the `processing` write.
- `ensureUserExists` and the other get-or-create helpers re-read the record
  after creating it. `handlePullRequestEvent` then checks for a missing
  record. The model shows that the re-read always finds the record, so those
  `throw` branches cannot be taken and are not modelled as branches.

## Model

| member | source | states |
|---|---|---|
| GitHubService.ApiError | backend/src/services/githubService.ts:86-89 | the rethrown error's message is `GitHub API error: ` followed by the cause's message |
| GitHubService.ReviewableFiles | backend/src/services/githubService.ts:42-58 | every kept file comes from the input, is not `removed`, has at most 1000 changed lines and no skipped extension; every input file that qualifies is kept |
| GitHubService.ReviewableFilesAppend | backend/src/services/githubService.ts:42-58 | filtering a concatenation gives the concatenation of the filtered parts, so the filter works file by file and keeps the order |
| GitHubService.KeptPositions | backend/src/services/githubService.ts:42-58 | the positions of the qualifying files are strictly increasing, and they are exactly the qualifying positions |
| GitHubService.ReviewableFilesAtKeptPositions | backend/src/services/githubService.ts:42-58 | the returned list is the input read at those increasing positions: an order-preserving subsequence whose records are unchanged |
| GitHubService.ChangeLimitIsInclusive | backend/src/services/githubService.ts:44-47 | a file with exactly 1000 changed lines is kept and one with 1001 is dropped |
| GitHubService.SkipExtensionsAreLowerCase | backend/src/services/githubService.ts:49 | no denylisted extension contains an upper-case letter |
| GitHubService.SkipExtensionIgnoresCase | backend/src/services/githubService.ts:49-55 | a file whose name ends in a denylisted extension with any of its letters written in upper case is dropped |
| GitHubService.UpperCaseImagesAreSkipped | backend/src/services/githubService.ts:49-50 | `LOGO.PNG` and `photo.Jpg` count as having a denylisted extension |
| GitHubService.Section | backend/src/services/githubService.ts:63-66 | a file adds text exactly when it has a non-empty patch, and that text opens with a newline, the `--- a/` header naming the file and the `+++ b/` header naming it again, each on its own line, and ends with the patch followed by a newline |
| GitHubService.CombinedDiff | backend/src/services/githubService.ts:61-67 | the diff text is empty exactly when no file has a non-empty patch |
| GitHubService.CombinedDiffAppend | backend/src/services/githubService.ts:61-67 | the diff text of a concatenation is the concatenation of the diff texts, in file order |
| GitHubService.CombinedDiffWithPatch | backend/src/services/githubService.ts:61-67 | when the first file with a patch is the i-th, the text is that file's section followed by the text of the files after it, so it starts with the newline and the dash of the `--- a/` header |
| GitHubService.CombinedDiffBlankIffNoPatch | backend/src/services/githubService.ts:61-67 | the diff text is whitespace only exactly when no kept file has a patch |
| GitHubService.Truncate | backend/src/services/githubService.ts:70-73 | text of at most 50,000 characters is unchanged; longer text becomes its first 50,000 characters followed by the truncation marker |
| GitHubService.TruncatedDiffBlankIffNoPatch | backend/src/services/githubService.ts:61-73 | after the cap, the content is still whitespace only exactly when no kept file has a patch |
| GitHubService.DiffOfIsFilteredAndCapped | backend/src/services/githubService.ts:42-84 | every returned file is a reviewable file of the listing and every reviewable file is returned, in listing order and unchanged; the content is whitespace only exactly when no returned file has a patch, and is at most 50,000 characters plus the truncation marker |
| GitHubService.DiffResult | backend/src/services/githubService.ts:29-90 | the diff succeeds exactly when the listing does, and a listing error comes back wrapped |
| GitHubService.GetPullRequestDiff | backend/src/services/githubService.ts:29-90 | the diff text built by the loop and then capped is the diff that `DiffResult` describes |
| GitHubService.PullRequestDetailsOf | backend/src/services/githubService.ts:92-117 | title, state and both refs are copied; a missing body becomes the empty text; errors come back wrapped |
| AIService.BuildAnalysisPrompt | backend/src/services/aiService.ts:64-99 | the title and the diff appear verbatim in the prompt, at fixed offsets after the fixed text |
| AIService.PromptTemplate | backend/src/services/aiService.ts:64-99 | the prompt opens with the fixed head, has the fixed middle right after the title and the fixed instructions right after the diff, and closes with the comment-limit request and a newline; its length is the sum of those parts |
| AIService.PromptRequestsCommentLimit | backend/src/services/aiService.ts:97-98 | the 8-comment limit is only requested, as a sentence of the prompt |
| AIService.SkipSpaces | backend/src/services/aiService.ts:105 | `\s*` skips the longest run of whitespace |
| AIService.FenceOpen | backend/src/services/aiService.ts:105 | a found opening starts with three backticks at the position and ends at a `{` at least three characters later |
| AIService.FenceOpenMatchesOpening | backend/src/services/aiService.ts:105 | an opening is found exactly when three backticks, an optional `json`, whitespace and a `{` follow the position, and it is at that `{`, the only one such a match can reach |
| AIService.LastFenceClose | backend/src/services/aiService.ts:105 | the greedy `[\s\S]*` ends at the last `}` that is followed by optional whitespace and a closing fence |
| AIService.FenceMatchAt | backend/src/services/aiService.ts:105 | a fenced match at a position exists exactly when an opening matches there and some later `}` is followed by a closing fence; it runs from the opening's `{` to the last such `}` |
| AIService.FirstFenceMatch | backend/src/services/aiService.ts:105 | the fenced pattern's match is the match at some position with no match at any earlier position, so the leftmost one; when there is none, no position matches |
| AIService.BareMatch | backend/src/services/aiService.ts:106 | the bare pattern matches exactly when a `{` comes before a `}`, and it spans from the first `{` to the last `}` |
| AIService.ExtractJson | backend/src/services/aiService.ts:105-113 | an extracted text starts with `{` and ends with `}` |
| AIService.ExtractJsonFindsBraceSpan | backend/src/services/aiService.ts:105-108 | extraction fails exactly when the answer has no `{` before a `}` |
| AIService.FencedBlockIsPreferred | backend/src/services/aiService.ts:105-106 | when a fenced block matches, its object is what gets parsed, whatever the rest of the answer holds |
| AIService.BareSpanWithoutFence | backend/src/services/aiService.ts:105-106 | without a fenced block, the text from the first `{` to the last `}` is parsed |
| AIService.WellShaped | backend/src/services/aiService.ts:117-119 | a value is well shaped exactly when reading `summary` gives a truthy value, `score` a number and `comments` an array, none of the reads throwing |
| AIService.Fallback | backend/src/services/aiService.ts:130-140 | the fallback has the fixed summary, score 75, and one `logic`/`medium` comment with the fixed content and no file or line |
| AIService.Clamp | backend/src/services/aiService.ts:122 | the score is brought into [1, 100]; a score already in range is unchanged |
| AIService.WithClampedScore | backend/src/services/aiService.ts:122 | only the score field changes, and it becomes the clamped score |
| AIService.ParseAnalysisResult | backend/src/services/aiService.ts:102-141 | parsing never throws: the result is the fallback, or a validated object with a score in [1, 100], or, when there is no brace span, the whole answer as parsed |
| AIService.MalformedAnswerGivesFallback | backend/src/services/aiService.ts:113-119 | an extracted text that does not parse, or parses to a badly shaped value, gives the fallback |
| AIService.EmptySummaryGivesFallback | backend/src/services/aiService.ts:117-119 | an empty summary counts as missing and gives the fallback |
| AIService.ExtractedObjectIsKept | backend/src/services/aiService.ts:113-124 | a well-shaped extracted object comes back with the same summary and comments and a clamped score |
| AIService.WholeAnswerIsNotValidated | backend/src/services/aiService.ts:108-111 | with no brace span, whatever the whole answer parses to is returned unchecked |
| AIService.AnalyzePullRequest | backend/src/services/aiService.ts:29-62 | a call error, or a missing or empty answer, is thrown with the `AI analysis failed: ` prefix and never turns into the fallback; any other answer is parsed |
| CodeAnalysisService.ParseFullName | backend/src/services/codeAnalysisService.ts:23-26 | the owner and the name are the first two `/`-separated parts; if either is missing or empty, the error names the full name |
| CodeAnalysisService.FullNameParts | backend/src/services/codeAnalysisService.ts:23-26 | `owner/repo` gives back `owner` and `repo` |
| CodeAnalysisService.FullNameExtraParts | backend/src/services/codeAnalysisService.ts:23-26 | parts after the second are ignored |
| CodeAnalysisService.MalformedFullName | backend/src/services/codeAnalysisService.ts:23-26 | a name with no `/`, or one that starts with `/`, is rejected |
| CodeAnalysisService.Fetch | backend/src/services/codeAnalysisService.ts:30-33 | the job goes on only when both fetches succeed; otherwise it fails with the error of one of the failed fetches |
| CodeAnalysisService.Pipeline | backend/src/services/codeAnalysisService.ts:22-49 | a malformed name or a failed fetch rejects the job with that error; after a fetch the job has no changes exactly when the diff is whitespace only, and is otherwise analysed with the analyzer's result or rejected with its error |
| CodeAnalysisService.PlannedFor | backend/src/services/codeAnalysisService.ts:18-84 | two or three writes, the first `processing`; the job succeeds exactly when the last write is `completed`, and a failure's last write is `failed` with the error; an analysis is written `completed` with its summary and score, and a prefix of its findings is stored, all of them exactly when the job succeeds; other verdicts store nothing |
| CodeAnalysisService.StoredCommentAt | backend/src/services/codeAnalysisService.ts:60-69 | the i-th stored comment copies the i-th finding, is linked to the review, and has the i-th new id |
| CodeAnalysisService.StoredCommentsAppend | backend/src/services/codeAnalysisService.ts:60-69 | storing one more finding appends exactly one comment |
| CodeAnalysisService.UpdatedByKeepsScore | backend/src/services/codeAnalysisService.ts:78-81 | writes that carry no score leave the stored score as it was |
| CodeAnalysisService.StatusPath | backend/src/services/codeAnalysisService.ts:18-84 | the statuses written are processing then completed, processing then failed, or processing, completed then failed; the job succeeds exactly when the last one is completed |
| CodeAnalysisService.ProcessingFirst | backend/src/services/codeAnalysisService.ts:20 | the first write of every job is `processing` |
| CodeAnalysisService.FailureIsRecordedAndRethrown | backend/src/services/codeAnalysisService.ts:74-84 | a failed job's last write is `failed` with `Analysis failed: ` and the message of the error it rethrows, and no score |
| CodeAnalysisService.CommentFaultFailsCompletedReview | backend/src/services/codeAnalysisService.ts:52-84 | a store failure at the k-th finding leaves the first k comments stored and turns the completed review into a failed one that keeps the analyzer's score |
| CodeAnalysisService.RejectedJobKeepsScore | backend/src/services/codeAnalysisService.ts:74-84 | a job that fails before any verdict ends `failed` with the review's earlier score |
| CodeAnalysisService.CompletedScore | backend/src/services/codeAnalysisService.ts:36-56 | a successful job ends `completed` with the analyzer's score, or with 100 when there are no changes |
| CodeAnalysisService.InvalidNameFailsEarly | backend/src/services/codeAnalysisService.ts:23-26 | a malformed name fails the job without consulting any service |
| CodeAnalysisService.BlankDiffSkipsAnalyzer | backend/src/services/codeAnalysisService.ts:36-44 | a whitespace-only diff completes with no changes, whatever the analyzer would have answered |
| CodeAnalysisService.AnalyzerSeesDiffAndTitle | backend/src/services/codeAnalysisService.ts:46-49 | otherwise the analyzer is called with the diff content and the pull request's title, and its answer decides the verdict |
| CodeAnalysisService.UnpatchedPullRequestHasNoChanges | backend/src/services/codeAnalysisService.ts:36-44 | when no reviewable file has a patch, the job writes processing, then completed with the no-changes summary and score 100, and stores no comments |
| CodeAnalysisService.Fail | backend/src/services/codeAnalysisService.ts:74-84 | the catch block writes `failed` and rethrows the error, or throws the store's error when that write fails |
| CodeAnalysisService.Decide | backend/src/services/codeAnalysisService.ts:22-49 | validating, fetching and analysing reach the verdict that `Pipeline` names |
| CodeAnalysisService.StoreFindings | backend/src/services/codeAnalysisService.ts:58-69 | the loop stores one comment per finding in order, up to a failing write, which sends the review to `failed` |
| CodeAnalysisService.Record | backend/src/services/codeAnalysisService.ts:36-84 | the writes after `processing` and the stored comments are those of the plan for the verdict |
| CodeAnalysisService.RecordAnalysis | backend/src/services/codeAnalysisService.ts:46-84 | for an analysis, the review is written `completed` with its summary and score and the findings are stored, exactly as the plan for that verdict says |
| CodeAnalysisService.ProcessReview | backend/src/services/codeAnalysisService.ts:13-85 | an existing review goes through exactly the planned writes and comments, and the job's outcome is the plan's; a missing review changes nothing and throws the store's not-found error |
| WebhookService.WebhookSecret | backend/src/services/webhookService.ts:11 | the configured secret is used, or `dev-secret-key` when it is unset or empty |
| WebhookService.Hex | backend/src/services/webhookService.ts:18-21 | the digest is written as two lower-case hex digits per byte |
| WebhookService.UnhexHex | backend/src/services/webhookService.ts:18-21 | the hex text reads back as the digest |
| WebhookService.HexInjective | backend/src/services/webhookService.ts:18-21 | different digests have different hex texts |
| WebhookService.ExpectedHeader | backend/src/services/webhookService.ts:18-23 | the expected header is `sha256=` followed by the lower-case hex encoding of the HMAC of the payload under the secret, all ASCII |
| WebhookService.AsciiUtf8Length | backend/src/services/webhookService.ts:25-28 | an ASCII text has one UTF-8 byte per character |
| WebhookService.VerifySignature | backend/src/services/webhookService.ts:15-29 | an empty signature is rejected; a byte-length mismatch throws; otherwise the answer is true exactly when the signature is the expected header |
| WebhookService.WrongLengthSignatureThrows | backend/src/services/webhookService.ts:25-28 | an ASCII signature of the wrong length throws instead of answering false |
| WebhookService.AcceptedSignatureNamesDigest | backend/src/services/webhookService.ts:18-28 | a header is accepted only when it carries this payload's digest under this secret |
| WebhookService.ExtractPayload | backend/src/services/webhookService.ts:32-37 | the payload is the body serialized again, and a missing signature header reads as empty |
| WebhookService.IsAnalysedAction | backend/src/services/webhookService.ts:49-53 | only the actions `opened` and `synchronize` are analysed |
| WebhookService.EnsureUserExists | backend/src/services/webhookService.ts:119-139 | a known GitHub id returns its user and changes nothing; otherwise exactly one user is created, named after the login with a `@github.local` email, unless that email is taken |
| WebhookService.EnsureRepositoryExists | backend/src/services/webhookService.ts:141-158 | a known repository is returned as first stored; otherwise exactly one is created and linked to the user |
| WebhookService.EnsurePullRequestExists | backend/src/services/webhookService.ts:160-176 | a known pull request is returned with its first title and state; otherwise exactly one is created and linked to the repository |
| WebhookService.ResolveRecords | backend/src/services/webhookService.ts:55-92 | only a taken email fails, and then nothing changes; otherwise each of the three keys holds its stored record or a new one built from the payload's fields and linked to the sender's user and the repository, no other record is added or changed, and the three records are returned |
| WebhookService.EnsureRepositoryAndPullRequest | backend/src/services/webhookService.ts:67-92 | for a stored user, the repository and pull request steps always succeed; each table gains at most its one key, holding the stored record or a new one with the payload's fields, linked to the user and the repository |
| WebhookService.OpenReview | backend/src/services/webhookService.ts:94-110 | one new `pending` review is created under a fresh id and handed to the orchestrator, whose outcome is returned |
| WebhookService.HandleAnalysedEvent | backend/src/services/webhookService.ts:55-115 | a taken email fails and changes nothing; otherwise the user, repository and pull-request tables change as `ResolveRecords` says, exactly one new review is added, earlier reviews are untouched, and the new review ends as the job's plan says, with the same outcome |
| WebhookService.HandlePullRequestEvent | backend/src/services/webhookService.ts:40-116 | actions other than `opened` and `synchronize` change nothing; the others behave as `HandleAnalysedEvent` |
| WebhookRoutes.Gate | backend/src/routes/webhooks.ts:26-34 | outside production every request passes; in production a request passes exactly when its header is the `sha256=` digest header of the re-serialized body, and a non-empty header of another UTF-8 byte length throws |
| WebhookRoutes.Dispatch | backend/src/routes/webhooks.ts:39-61 | the status is 200 or 500; it is 500 exactly when the `pull_request` handler fails or a `ping` payload is `null`; any other event gets the unsupported-event message |
| WebhookRoutes.ServerError | backend/src/routes/webhooks.ts:63-70 | the catch block answers 500 with the error's message |
| WebhookRoutes.With | backend/src/routes/webhooks.ts:57-61 | a field whose value is `undefined` is left out of the JSON answer, and the other fields are kept |
| WebhookRoutes.HandleWebhook | backend/src/routes/webhooks.ts:14-71 | the status is 200, 401 or 500; it is 401 exactly when the gate rejects the signature; a throwing comparison gives 500 |
| WebhookRoutes.SignatureIgnoredOutsideProduction | backend/src/routes/webhooks.ts:29-34 | outside production, the header, the secret and the digest do not change the answer |
| WebhookRoutes.UnsignedRequestRejectedInProduction | backend/src/routes/webhooks.ts:29-34 | in production a missing or empty signature header is answered 401, whatever the event |
| WebhookRoutes.RejectedRequestRunsNoHandler | backend/src/routes/webhooks.ts:29-34 | a rejected signature is answered 401 whatever the parser and the handler would do |
| WebhookRoutes.GateReadsReserializedBody | backend/src/routes/webhooks.ts:26-30 | in production a request passes exactly when its header is the digest of the re-serialized body; the raw bytes play no part |
| WebhookRoutes.RawBodySignatureRejected | backend/src/routes/webhooks.ts:8-34 | GitHub's header over the raw bytes is not answered 200 when the re-serialized body has another digest |
| WebhookRoutes.EventDispatch | backend/src/routes/webhooks.ts:36-61 | after a passed gate and a parsed payload: a handled `pull_request` gets the success message naming the event and the delivery id when there is one, a failed one the 500 answer; `ping` echoes the payload's `zen` or answers 500 on `null`; any other event is unsupported |
| WebhookRoutes.UnparsablePayloadIsServerError | backend/src/routes/webhooks.ts:36-70 | a payload that does not parse back is answered 500 with the parser's message, whatever the event |
| WebhookRoutes.Health | backend/src/routes/webhooks.ts:74-80 | the health answer is 200 and lists `pull_request` and `ping` as the supported events |
| WebhookRoutes.AdvertisedEventsAreHandled | backend/src/routes/webhooks.ts:40-55 | an event is answered as unsupported exactly when the health answer does not list it |
| Text.TrimIsEmptyIffBlank | backend/src/services/codeAnalysisService.ts:36 | a text trims to empty exactly when it is whitespace only |
| Text.JoinSplit | backend/src/services/codeAnalysisService.ts:23 | splitting on a separator loses nothing: joining the parts gives the text back |
| Text.ToLower | backend/src/services/githubService.ts:50 | lower-casing keeps the length, turns each upper-case ASCII letter into its own lower-case letter (32 code points on) and keeps every other character |
| Text.LowerOfCaseVariant | backend/src/services/githubService.ts:50 | lower-casing any mixed-case spelling of a text that has no upper-case letters gives back that text |
| Text.NumberToStringInjective | backend/src/services/webhookService.ts:58 | different sender ids give different user keys |
| Js.Get | backend/src/routes/webhooks.ts:49 | reading a field of `null` throws and reading from any other value does not; a value read is that field of an object |
| Database.UpdatedBy | backend/src/services/database.ts:84-93 | successive partial updates never change a review's id or its links |
| Database.Store.UserByGithubId | backend/src/services/database.ts:29-34 | a user is found exactly when its GitHub id is stored |
| Database.Store.CreateUser | backend/src/services/database.ts:13-20 | creation fails on a taken GitHub id or email and otherwise adds exactly one user under a fresh id |
| Database.Store.CreateRepository | backend/src/services/database.ts:37-46 | creation fails on a taken GitHub id or an unknown user and otherwise adds exactly one repository |
| Database.Store.CreatePullRequest | backend/src/services/database.ts:56-64 | creation fails on a taken GitHub id or an unknown repository and otherwise adds exactly one pull request |
| Database.Store.CreateReview | backend/src/services/database.ts:74-82 | creation fails on an unknown pull request or user and otherwise adds exactly one review under a fresh id |
| Database.Store.UpdateReview | backend/src/services/database.ts:84-93 | an update applies the given fields to an existing review, or fails with not-found and changes nothing |
| Database.Store.CreateComment | backend/src/services/database.ts:96-105 | creation fails on an unknown review and otherwise appends exactly one comment under a fresh id |

## Left out

- Logging, the clock and process start-up are not modelled. The health answer's timestamp is a parameter. The constructors that read `GITHUB_TOKEN` and `OPENAI_API_KEY` are left out, and so are the `testConnection` probes.
- HMAC-SHA256, `JSON.parse` and `JSON.stringify` are function parameters with no internals. The hex encoding of the digest is modelled.
- The Octokit and OpenAI clients are left out; each call is an input result. The model name, temperature, system message and token limit of the chat request are not modelled.
- Only the one page of up to 100 files that the service asks for is modelled. The listing is a given list.
- `Promise.all` is modelled as two sequential fetches plus a flag that says which rejection wins. Concurrent deliveries of the same event are not modelled.
- Scores are integers. Floating-point scores and `Math.max`/`Math.min` on them are not modelled.
- CodeAnalysisService.Pipeline: the analyzer is a parameter that returns an analysis already typed as `CodeAnalysisResult`. It is not composed with `AIService.AnalyzePullRequest`, because the Json-to-record conversion happens in the JavaScript runtime without checks. As a result, the whole-answer path's unvalidated values never reach the store in the model.
- WebhookRoutes.HandleWebhook: the `pull_request` handler is an abstract outcome over the parsed Json. The unchecked cast to `PullRequestWebhookPayload` is not modelled, so the route is not composed with `WebhookService.HandlePullRequestEvent`.
- WebhookService.ResolveRecords: the links from repository to user and from pull request to repository are stated only for records created by this call. Records that were already stored keep whatever links they had. The ids of created records are stated as fresh store ids by `EnsureUserExists` and its siblings, not by this method.
- GitHubService.Truncate: lengths are counted in Unicode scalar values, while `length` and `substring` in the source count UTF-16 code units. For text with characters outside the Basic Multilingual Plane the source cuts earlier than the model, and it can split a surrogate pair, which the model cannot represent.
- GitHubService.GetPullRequestDiff: the 50,000 cap is on scalar values, as for `GitHubService.Truncate`.
- Database.Store: the store's foreign-key links are checked at creation but are not an invariant of `Valid`. The uniqueness and foreign-key rules come from the Prisma schema, which is not part of this model. Store failures other than those rules and update-not-found are not modelled.
- A failing comment write is modelled as a given position in the findings list together with its error. Other store failures during `processReview` are not modelled.
- Text.ToLower: only ASCII letters are lower-cased, whereas `toLowerCase` also maps other letters. Every denylisted extension is lower-case ASCII, so whether a file is skipped depends only on the ASCII letters of its name's ending.
- `getReviewWithComments`, `getRepositoryStats`, the reviews route, the Express wiring and the frontend are not part of this model.
