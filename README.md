# Factory GitHub App and workflow policy: a Dafny model

This project models the logic of the Factory repository's GitHub App relay and tooling:

- **Authentication (`Auth`).** Covers the claims of the app assertion: `iat`, `exp = iat + 600`, `iss`. It also covers the process-wide installation-token cache, keyed by `token_<installation id>`. The cache serves a token only while `now < expires_at - 300`. Otherwise a new token is exchanged and stored with an expiry of one hour. The cache is a class with a map field. The model also maps the reply of the installation lookup to a result.
- **Webhook endpoint (`Webhook`, with `Hex`).** Covers verification of the `X-Hub-Signature-256` header. Verification is permissive when no secret is configured. The gate verifies only when both the header and the secret are present. Routing sends `issues.labeled`, `issues.closed`, `ping` and everything else to their destinations.
- **Stage tracking (`Handlers`).** Covers the
  - `stage:` label filter;
  - stage-name table with its fallback;
  - choice of the first stage label on close;
  - rewrite of the tracking issue's body (checklist tick and activity line);
  - early exits of the tracking update.
- **Workflow security-policy validator (`ValidateWorkflows`, with `PyValue`).**
  - The four checks are methods with loops, as the script is written: forbidden permissions, action pinning, dangerous triggers and secret substrings.
  - Each method is proved equal to a specification function.
  - Lemmas state the policy: what is flagged, at most one pinning finding per step, trigger normalisation, and the order and bound of secret findings.
  - Further lemmas cover the issue/warning classification and the exit code.
  - `PyValue` gives the Python meaning of `in`, `[]`, `.items()` and iteration on a loaded YAML value, including the cases that raise.
- **Project field options (`ColorScheme`).** Covers the three colour tables, `createColoredOptions` and the three field configurations.

`Common` holds `Option`, `Result` and `byte`. `Text` holds Python's string operations: prefix test, substring search, `str.replace`, `str.split`, `str.join` and decimal rendering.

Inputs that the code reads from the environment, the clock, files or the network are parameters:
- the app id, key path and key content;
- the webhook secret;
- the current time, in whole seconds;
- GitHub's HTTP replies, as small reply datatypes;
- the HMAC digest, as a function parameter;
- the `str(workflow)` rendering;
- the formatted timestamp;
- whether the workflow directory exists.

Code and design notes:
- `action.split("@")[1]` is the text between the first `@` and the next `@`, not everything after the first `@`. The model follows the code (`ValidateWorkflows.PinnedRefSegment`).
- PyYAML loads an unquoted `on:` key as the boolean `True`. So with a real YAML loader, `check_dangerous_triggers` only sees triggers written under a quoted `"on"` key. The model starts from the loaded value, where the key is whatever the loader produced.
- A "not pinned at all" finding is prefixed like an error, but `validate_workflow` files it with the warnings. It therefore never changes the exit code. The model keeps it with the warnings.
- One token request reads the clock three times: for the cache test (app/auth.py:69), inside `create_jwt` for `iat` (app/auth.py:40) and for the stored expiry (app/auth.py:92). The model uses one reading, `now`, for all three.
- `test_webhook_secret` sets `GITHUB_APP_WEBHOOK_SECRET` after app/main.py:35 has already read it at import, so as written the test runs with whatever secret the environment held. `Webhook.LabeledScenario` proves what the test intends: the endpoint under the secret `test_webhook_secret`.

## Model

| member | source | states |
|---|---|---|
| Auth.CreateJwt | app/auth.py:28-50 | An empty app id or key path fails with the missing-configuration error. An unreadable key file fails with the unreadable-key error. A key file that reads but is not an RSA private key fails with the signing error, as `jwt.encode` raises. It succeeds exactly when both are set and the key is an RSA key. The claims are `iat = now`, `exp = iat + 600` and `iss = app id`, and the key text read signs them. |
| Auth.CachedToken | app/auth.py:65-71 | A token served comes from the `token_<id>` entry and is its token. At a non-negative time, the entry has an expiry more than 300 s later. |
| Auth.CacheKeyInjective | app/auth.py:65 | Distinct installation ids have distinct `token_` cache keys. |
| Auth.ServedTokenOutlivesMargin | app/auth.py:66-71 | A token the cache serves comes from an entry with an expiry more than 300 s after `now`. It is that entry's token. |
| Auth.MarginIsMiss | app/auth.py:68-69 | An entry with `expires_at - 300 <= now` is a miss, even when it has not yet expired. |
| Auth.NoExpiryIsMiss | app/auth.py:68-69 | An entry without `expires_at` (read as 0) is always a miss. |
| Auth.EmptyCacheMisses | app/auth.py:25 | The empty cache serves nothing. |
| Auth.StoredTokenServedUntilMargin | app/auth.py:65-93 | After storing a token at `now`, the same installation is served that token at a time `later >= now` exactly when `later < now + 3300`. |
| Auth.StoreLeavesOthers | app/auth.py:89-93 | Storing one installation's token does not change what any other installation finds. |
| Auth.ExchangeResult | app/auth.py:84-91 | The exchange yields the reply's token exactly when the status is 2xx and the token field is present. A non-2xx status is the HTTP-status error. |
| Auth.TokenCache.constructor | app/auth.py:25 | The cache starts empty. |
| Auth.TokenCache.Clear | app/auth.py:126-129 | Afterwards the map is empty and every lookup misses. |
| Auth.TokenCache.GetInstallationToken | app/auth.py:53-96 | A hit returns the cached token with no exchange and no change. On a miss the assertion is made first; if it fails, nothing is sent or changed. The exchange happens exactly on a miss with a valid assertion. A successful exchange stores exactly `token_<id> -> (token, now + 3600)` and returns that token. A failed exchange leaves the cache unchanged. |
| Auth.SecondCallServedFromCache | app/auth.py:65-96 | From an empty cache, two calls within 3300 s return the same token, and the second makes no exchange. |
| Auth.GetAppInstallationId | app/auth.py:99-123 | A failing assertion propagates its error. With a valid assertion: an unreachable server is the transport error; a non-2xx reply gives no installation (`None`), not an error; a 2xx reply without `id` is the malformed-reply error; a 2xx reply with `id` gives the decimal rendering of that id. |
| Auth.ResolvedIdsDistinct | app/auth.py:120 | A resolved id is never empty, and distinct numeric ids give distinct strings. |
| Text.IntToString | app/auth.py:120 | `str(id)` is non-empty and starts with `-` exactly for negative ids. |
| Text.NatToStringInjective | app/auth.py:120 | Distinct naturals have distinct decimal renderings. |
| Hex.EncodeLength | app/main.py:49-53 | `hexdigest` has two characters per byte. |
| Hex.DecodeEncode | app/main.py:49-53 | Reading back a lower-case hex digest gives the digest's bytes. |
| Hex.EncodeDecode | app/main.py:49-56 | A string that reads as hex bytes is the digest of those bytes. |
| Hex.EncodeInjective | app/main.py:49-53 | Distinct digests have distinct hex renderings. |
| Webhook.VerifySignature | app/main.py:40-58 | An empty secret accepts every signature. With a secret, an accepted signature is `sha256=` followed by 64 characters. |
| Webhook.PermissiveWithoutSecret | app/main.py:45-47 | With an empty secret, every signature is accepted for every payload. |
| Webhook.VerifyIffCarriesDigest | app/main.py:49-58 | With a secret, a header is accepted exactly when it is `sha256=` followed by hex that decodes to the HMAC of the body under the secret. |
| Webhook.WrongLengthRejected | app/main.py:49-58 | With a secret, a header whose length is not 7 + 64 is refused. |
| Webhook.HandleWebhook | app/main.py:86-121 | The reply is 401 exactly when the header and the secret are present and verification fails, and then no handler runs. `pong` is returned exactly for an authenticated `ping`. The labeled and closed handlers run exactly for an authenticated `issues` event with that action. Every other authenticated request is accepted. |
| Webhook.UnverifiedWhenHeaderOrSecretMissing | app/main.py:90 | Without the header or without a secret, no request is rejected. |
| Webhook.GenuineSignatureAccepted | app/main.py:90-93 | The signature GitHub computes is never rejected. |
| Webhook.Route | app/main.py:99-121 | Routing never rejects. `pong` is returned exactly for `ping`, with no handler. The labeled and closed handlers run exactly for an `issues` event whose action, read as `unknown` when missing, is `labeled` or `closed`. |
| Webhook.MissingActionRoutesNowhere | app/main.py:99-115 | A missing action routes as `unknown`, to no handler. |
| Webhook.LabeledScenario | app/test_app.py:76-118 | Under `test_webhook_secret`, the correctly signed labeled event runs the labeled handler and is accepted. With `sha256=invalid` it gets 401. |
| Handlers.StageName | app/handlers.py:50 | A label in the table maps to one of the table's display names. Any other label is its own stage name. |
| Handlers.StageNameFallsBack | app/handlers.py:23-50 | A label in the table has the table's display name and passes the `stage:` test. Any other label is its own stage name. |
| Handlers.HandleIssueLabeled | app/handlers.py:33-54 | A tracking update is requested exactly when the label name starts with `stage:`. It carries status `started`, the stage name and the repository's full name, with missing fields read as "". |
| Handlers.StageLabelNames | app/handlers.py:66-67 | Every kept label starts with `stage:`. |
| Handlers.FirstStageLabel | app/handlers.py:66-75 | The filter is non-empty exactly when some label is a stage label. Its first element is the first such label. |
| Handlers.HandleIssueClosed | app/handlers.py:57-81 | An issue without labels requests nothing. Any request made completes a stage of the repository's full name, read as "" when missing. |
| Handlers.ClosedUsesFirstStageLabel | app/handlers.py:57-81 | A closed issue requests an update exactly when it has a stage label. The update completes the stage of the first stage label. |
| Handlers.TickStage | app/handlers.py:132-139 | The checklist step keeps the body's length. A body without an open box of the stage is unchanged. |
| Handlers.RewriteBody | app/handlers.py:128-147 | When the ticked body holds no `Last updated:` marker, the rewrite is the ticked body. |
| Handlers.TickStageSpec | app/handlers.py:132-139 | For `completed`, the body is split at the open boxes and rejoined with ticked boxes. The body changes exactly when it holds an open box of the stage. For `started`, the body is unchanged. |
| Handlers.ActivityStepSpec | app/handlers.py:141-147 | Every `Last updated:` marker becomes the activity text. The step changes the body exactly when the marker occurs. |
| Handlers.RewriteWithoutMarkers | app/handlers.py:128-147 | A body with no marker, and with no open box when the stage is completed, is left unchanged. A `null` body becomes "". |
| Handlers.UpdateFactoryTracking | app/handlers.py:84-163 | A PATCH is sent exactly under these conditions: the factory repository is configured, an installation is found, the token is obtained, the search succeeds with a non-zero total and has an item. The PATCH goes to the first item's issue with the rewritten body. |
| Handlers.NoPatchOnEarlyExit | app/handlers.py:93-123 | No PATCH is sent when no factory repository is configured, when no installation is found, or when the search reports a total of 0. |
| Handlers.ResolvedInstallationIsUsed | app/handlers.py:99-102 | Every id the resolver returns passes the `not installation_id` test. |
| Handlers.ProtocolDevelopmentScenario | app/test_app.py:121-164 | The test suite's labeled event starts, and its closed event completes, `Protocol Development` for `test-org/study-test`. |
| Text.ReplaceAllIsJoinSplit | app/handlers.py:136 | `str.replace` equals splitting at the pattern and joining with the replacement. |
| Text.JoinSplit | app/handlers.py:136 | Joining the pieces of a split with the separator gives back the original string. |
| Text.ReplaceKeepsLength | app/handlers.py:136 | Replacing a pattern by text of the same length keeps the length. |
| Text.ReplaceUnchangedIff | app/handlers.py:144-147 | With a replacement different from the pattern, `str.replace` leaves the string unchanged exactly when the pattern does not occur. |
| PyValue.Lookup | tools/validate_workflows.py:23 | `mapping[key]` returns exactly when the key is present, and returns a value stored under that key. |
| ValidateWorkflows.CheckPermissions | tools/validate_workflows.py:17-35 | The method computes the permission findings: the workflow-level finding first, then the job findings. It raises exactly when the checked code raises. |
| ValidateWorkflows.CheckJobPermissions | tools/validate_workflows.py:28-33 | The loop over the jobs appends each job's finding, in job order, to the findings built so far. It raises where reading a job's `permissions` raises. |
| ValidateWorkflows.JobsPermissionsExact | tools/validate_workflows.py:28-33 | On mapping jobs there are at most as many findings as jobs. Every finding names a job whose `permissions` is the string `write-all` or `admin`. Every such job is flagged. |
| ValidateWorkflows.PermissionsExact | tools/validate_workflows.py:13-33 | On a mapping document whose `jobs`, when present, is a mapping of mappings, nothing raises. The workflow-level finding appears exactly when `permissions` is a forbidden string, and a mapping is never flagged. All findings are permission findings. |
| ValidateWorkflows.CheckOrg | tools/validate_workflows.py:56-70 | For one organisation: an action under it without `@` is not pinned. An action with a ref that is neither a 40-digit hex SHA nor a `v` tag should be SHA-pinned. Any other action gives nothing. |
| ValidateWorkflows.CheckOrgs | tools/validate_workflows.py:55-70 | The loop over `actions`, `github` and `docker` computes the organisation findings of one step. |
| ValidateWorkflows.CheckJobSteps | tools/validate_workflows.py:44-48 | A job without `steps` yields no pinning finding. Otherwise the job's findings are those of its steps. It raises exactly where reading `steps` raises. |
| ValidateWorkflows.CheckSteps | tools/validate_workflows.py:48-70 | The loop over a job's steps, numbered from 1, computes the findings of every step in order. It stops by raising at the first step that raises. |
| ValidateWorkflows.CheckStep | tools/validate_workflows.py:49-55 | A step without `uses` gives nothing. A `uses` that is not a string raises. Otherwise the step gives the findings of the organisation loop. |
| ValidateWorkflows.CheckActionPinning | tools/validate_workflows.py:37-72 | The loop over jobs computes the pinning findings. |
| ValidateWorkflows.OrgLoopIsVerdict | tools/validate_workflows.py:14-70 | The organisation loop yields a single verdict, so there is at most one finding per step. An action outside the three organisations has none. Without `@` it is "not pinned at all". With a ref that is neither 40 hex characters (any case) nor `v...`, it is "should be SHA-pinned". |
| ValidateWorkflows.PinnedRefSegment | tools/validate_workflows.py:58-59 | The ref is the text right after the first `@`, up to the next `@` or the end. It holds no `@`. |
| ValidateWorkflows.StepsPinningBounded | tools/validate_workflows.py:48-70 | A list of steps yields at most one pinning finding per step. |
| ValidateWorkflows.SkippedWithoutStepsOrUses | tools/validate_workflows.py:44-50 | A job without `steps`, or a step without `uses`, yields no finding. |
| ValidateWorkflows.CheckDangerousTriggers | tools/validate_workflows.py:74-96 | The method computes the trigger findings, or raises where the code does. |
| ValidateWorkflows.FlagTriggers | tools/validate_workflows.py:89-94 | The loop flags each normalised trigger that is dangerous, in order. |
| ValidateWorkflows.TriggerFindingsExact | tools/validate_workflows.py:89-94 | There are at most as many findings as triggers. A trigger is reported exactly when it is `pull_request_target` or `workflow_run` and occurs among the triggers. Nothing else is reported. |
| ValidateWorkflows.TriggerNormalisation | tools/validate_workflows.py:78-87 | With no `on`, nothing is reported. A string is one trigger, a mapping gives its keys and a list gives its elements. |
| ValidateWorkflows.CheckSecrets | tools/validate_workflows.py:98-118 | The loop computes the secret findings of the rendered workflow. |
| ValidateWorkflows.ScanPatterns | tools/validate_workflows.py:111-116 | The loop over the patterns reports each pattern that occurs in the rendered text, in list order. |
| ValidateWorkflows.PatternFindingsExact | tools/validate_workflows.py:111-116 | There is one finding per pattern that occurs as a substring, and no other. |
| ValidateWorkflows.PatternFindingsInOrder | tools/validate_workflows.py:106-116 | For distinct patterns, the findings appear in the order of the pattern list. |
| ValidateWorkflows.SecretFindingsExact | tools/validate_workflows.py:103-116 | There are at most 6 secret findings. A pattern is reported exactly when it occurs in the rendering. Findings follow the list order. |
| ValidateWorkflows.ValidateWorkflow | tools/validate_workflows.py:120-143 | The method computes the report. An unreadable file is one error issue and invalid YAML is one YAML issue. A falsy document gives nothing. A check that raises adds one error issue after what the earlier checks added. |
| ValidateWorkflows.ReportClassification | tools/validate_workflows.py:129-141 | Issues are only permission, secret or error findings. Warnings are only pinning or trigger findings. An empty document yields nothing. |
| ValidateWorkflows.WellShapedNeverRaises | tools/validate_workflows.py:125-141 | On a well-shaped workflow no check raises. The report is permissions plus secrets as issues, and pinning plus triggers as warnings. |
| ValidateWorkflows.PinningNeverRaises | tools/validate_workflows.py:41-70 | On a well-shaped workflow the pinning check returns. |
| ValidateWorkflows.TriggersNeverRaise | tools/validate_workflows.py:78-89 | A workflow whose `on` is a string, a list or a mapping yields its trigger findings without raising. |
| ValidateWorkflows.AllIssuesEmptyIff | tools/validate_workflows.py:165-171 | The accumulated issues are empty exactly when every file's issues are empty. |
| ValidateWorkflows.RunValidation | tools/validate_workflows.py:145-190 | The exit code is 0 or 1. It is 1 exactly when the directory is missing or some file has an issue. Warnings alone, or no files, give 0. |
| ColorScheme.CreateColoredOptions | docs/color-scheme-config.js:47-54 | Options exist exactly when the type's lookup yields an object, with one option per entry. |
| ColorScheme.OptionsFollowTable | docs/color-scheme-config.js:48-53 | Reading the name and colour back from the options gives the table, in order. Each description is `name + " status in " + lower(type) + " workflow"`. |
| ColorScheme.TablesHaveDistinctNames | docs/color-scheme-config.js:4-43 | Each table's names are distinct, so option names are distinct within a field. |
| ColorScheme.UnknownTypes | docs/color-scheme-config.js:47-49 | An inherited property name such as `toString` yields no options. An unknown type, including the lower-case spelling, throws. |
| ColorScheme.ProjectFieldConfigs | docs/color-scheme-config.js:57-75 | There are three field configurations. |
| ColorScheme.FieldConfigsShape | docs/color-scheme-config.js:4-75 | `Status`, `Stage` and `Site Status` are single-select fields. Their options are built from the Factory Status, Study Stage and Partner Status tables (8, 10 and 10 entries), in table order. |

## Left out

- Network I/O: every `httpx` request (token exchange, installation lookup, issue search, PATCH) is replaced by its reply, given as an input datatype. The body and headers sent are not modelled.
- Cryptography: RS256 signing is represented by the key text that signs. Whether the key file holds an RSA private key is an input; parsing PEM is not modelled. HMAC-SHA256 is a caller-supplied function, and `hmac.compare_digest` is equality, without its constant-time behaviour. A non-ASCII header makes `compare_digest` raise (a 500 rather than a 401); the model counts it as a mismatch.
- Concurrency: the handlers are async, and concurrent cache writes can interleave. The cache is modelled as sequential calls.
- Clock and floats: times are whole seconds. `time.time()` is a float in the source, and the three readings of one token request become one. The UTC timestamp string is a parameter.
- FastAPI plumbing: the app object, the health routes, settings loaded from the environment, logging and uvicorn.
- Malformed requests: an invalid JSON body (`request.json()` raising) is not modelled. A label that is JSON `null` (where `.get` or `.startswith` would raise inside a handler) is not modelled either; either way the endpoint still answers 200.
- YAML loading, file reading, globbing and printing in the validator. The loaded value, the `str(workflow)` rendering and the directory check are inputs.
- YAML floats and timestamps are not `PyValue` values. A mapping's keys are taken to be distinct, and lookup returns the first match.
- tools/snapshot_docs.py and tools/package_briefing.py are not part of this model: they write files and archives and do no policy logic.
- app/test_app.py is not modelled as code. Its scenarios are restated as lemmas (`Webhook.LabeledScenario`, `Handlers.ProtocolDevelopmentScenario`).
- ColorScheme.CreateColoredOptions: `toLowerCase` is modelled for ASCII only. It is reached only for the three table keys, which are ASCII.
