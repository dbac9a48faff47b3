# Provider bootstrap of the Trility AWS Terraform plugin, in Dafny

This project models the decision logic of the provider bootstrap in
`aws/config.go`: how a provider `Config` becomes an `AWSClient` bundle or an
aggregated error. It covers the region allow-list check, the credential
provider chain that `getCreds` builds (static keys, environment, shared
credentials file, and an EC2-role provider only when a short metadata probe
identifies the EC2 metadata service), the classification of a failed
`creds.Get()`, the classification of the `iam.GetUser` outcome in
`ValidateCredentials`, the phase order and early exits of `Config.Client`,
and the token filter of the SDK debug logger `awsLogger.Log`.

Every external effect is an input (`Bootstrap.World`): the value of
`AWS_METADATA_URL`, whether debug logging is on, the outcome of the metadata
GET for a URL, each credential provider's `Retrieve`, the Build handlers a
new SDK session starts with, and the outcome of `GetUser`. `Client` returns,
besides the client or the errors, the list of phases it reached, so that
"nothing touches the network after a region failure" is a postcondition.

Files and modules:

- `errors.dfy` (`AwsErrors`): `Option`, `Result`, and Go errors as
  `AwsError(code, text)` / `PlainError(text)`.
- `region.dfy` (`Region`): the sixteen region codes and `ValidateRegion`.
- `credentials.dfy` (`Credentials`): the provider chain, the metadata probe
  heuristic, the chain resolution and the `creds.Get()` error messages.
- `validation.dfy` (`Validation`): `ValidateCredentials` and a four-way
  `Verdict` reference classification.
- `logger.dfy` (`AwsLogger`): `Log`, the string filter, `Join`, and `Split`
  as its inverse.
- `client.dfy` (`Bootstrap`): `Config`, sessions, service clients and
  `Client`.

The SDK's chain credentials (`NewChainCredentials`, aws/config.go:235) are
code this model cannot see. `Credentials.ChainGet` states what is assumed of
them: providers are tried in order, the first `Retrieve` that succeeds is
the result, and when every provider fails the chain reports an error with
code `NoCredentialProviders`.

Notes on what the code does:

- Errors do not accumulate. Each failure ends the bootstrap, so the error
  list handed to the aggregated error never holds more than one error
  (`Bootstrap.Client` proves `|errs| <= 1`).
- The Cognito Identity client is built even when credential validation
  failed (aws/config.go:110-123); the bundle is then discarded and no client
  is returned.
- Under the chain assumption above, a failed lookup always carries code
  `NoCredentialProviders`. The "Error loading credentials" branch of
  aws/config.go:78-79 is modelled in `Credentials.CredentialsError`, but no
  run of `Client` reaches it.

## Model

| member | source | states |
|---|---|---|
| `Region.ValidateRegion` | aws/config.go:135-160 | The nil error exactly when the region is one of the sixteen listed codes; otherwise the error "Not a valid region: " followed by the region, whose suffix after the prefix is the region. |
| `Validation.ValidateCredentials` | aws/config.go:166-182 | Nil exactly for success and for the codes AccessDenied and ValidationError; the fixed "Failed authenticating with AWS: please verify credentials" error for SignatureDoesNotMatch; every other error, AWS or not, returned unchanged. |
| `Credentials.Contains` | aws/config.go:220 | True exactly when the substring occurs at some offset of the string (the `strings.Contains` test on the first `Server` value). |
| `Credentials.GetCreds` | aws/config.go:188-236 | The probed URL is `AWS_METADATA_URL` when non-empty, else http://169.254.169.254:80/latest; the chain starts Static(key, secret, token), Env, SharedCredentials(credsfile, profile); it has a fourth provider, EC2Role at the probed URL, exactly when the probe responded with a first `Server` value containing "EC2"; a failed probe gives exactly three providers. |
| `Credentials.ChainGet` | aws/config.go:235 | Resolution fails exactly when every provider fails, and then with the NoCredentialProviders error. |
| `Credentials.ChainGetFirstWins` | aws/config.go:235 | The result is that of the first provider whose retrieval succeeds; providers after it are never consulted. |
| `Credentials.StaticCredentialsWin` | aws/config.go:190-201 | When the static provider yields the configured keys, they are the resolved credentials whatever the environment, shared file or metadata would give. |
| `Credentials.CredentialsError` | aws/config.go:72-80 | The fixed "No valid credential sources found" guidance exactly when the error has code NoCredentialProviders; otherwise "Error loading credentials for AWS Provider: " followed by the cause's text, which can be read back after the prefix. |
| `Credentials.NoSourcesWithoutMetadata` | aws/config.go:72-77 | With no static, environment or shared-file credentials and a probe that does not identify EC2, the lookup fails and the recorded error is the no-sources guidance. |
| `AwsLogger.Log` | aws/config.go:248-255 | The logged line is the prefix "[DEBUG] [aws-sdk-go] " followed by the string arguments joined with single spaces. |
| `AwsLogger.StringArgsConcat` | aws/config.go:249-254 | Filtering the arguments distributes over concatenation, so the kept strings keep their original order. |
| `AwsLogger.StringArgsMembers` | aws/config.go:249-254 | A string is kept exactly when it was passed as a string argument. |
| `AwsLogger.StringArgsLength` | aws/config.go:249-254 | At most as many tokens as arguments, and as many exactly when every argument is a string: every non-string argument is dropped. |
| `AwsLogger.SplitJoin` | aws/config.go:255 | Splitting a join on its one-character separator gives back the tokens when there is at least one and none contains the separator. |
| `AwsLogger.LogPayloadRecoversStrings` | aws/config.go:248-255 | The payload after the prefix splits on spaces back into exactly the string arguments when at least one is given and none contains a space. |
| `Bootstrap.Client` | aws/config.go:51-131 | A client exactly when no error is recorded, and at most one error; an invalid region gives only its error and reaches no other phase; a failed credential lookup gives its classified error before any session, IAM client or GetUser call; GetUser runs exactly when region and lookup pass, and its validation verdict decides the result; a returned bundle has the configured region, IAM and Cognito clients sharing one credential chain and session config, TLS verification disabled exactly when `Insecure` is set, debug logging exactly when debug is on, the IAM endpoint override on IAM only, and the user-agent handler first among the Build handlers. |

## Left out

- The metadata HTTP GET, the SDK sessions and the SDK credential providers are not modelled: their outcomes are inputs (`World.probe`, `World.retrieve`, `World.sdkBuildHandlers`, `World.getUser`); the 100 ms timeout appears only as the `Failed` probe outcome.
- Each provider's own rule for when it yields credentials (for instance the static provider needing non-empty keys) belongs to the SDK and is part of the `retrieve` input.
- The SDK's caching of the resolved value inside the chain credentials is not modelled; `Client` calls `creds.Get()` once.
- `log.Println`/`log.Printf` output, including the debug lines of `getCreds`, the warning on the silent-allow path and the timestamp the standard logger adds, is not modelled; `AwsLogger.Log` returns the line it would print.
- The TLS transport mutation, the debug log level and the user-agent handler are recorded as fields of the session (`insecureSkipVerify`, `debugLogging`, `buildHandlers`), not as changes to shared objects; aliasing of the HTTP transport is not captured.
- `Credentials.ProbeResult` represents an absent `Server` header as an empty list; a header present with no values (which would make the source index out of range) is not distinguished.
- The resource CRUD and import callbacks, the hash helpers of the user-pool resource, the schema of aws/provider.go with `providerConfigure`, and main.go are not part of this model: they are glue around SDK calls and the plugin framework.
