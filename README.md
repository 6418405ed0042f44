# wr11s-router-exporter: configuration resolver and router login

A Dafny model of two pieces of `wr11s-router-exporter`. The exporter logs
in to the web management interface of a WR11S router.

- **Configuration** (`config.dfy`, `pkg/config/config.go`). A `Config`
  record is filled in place by three passes, each writing one logrus entry:
  - the TOML file `config.toml`;
  - the environment variables `WR11_ADDRESS`, `WR11_USERNAME` and
    `WR11_PASSWORD`;
  - the flags `--address`, `--username` and `--password`.

  `validateConfig` then requires all three fields to be non-empty, checked
  in the order address, user name, password. `LoadConfig` wraps the error
  of the first stage that fails.

  `Config` and `Logger` are classes whose methods update their fields. Each
  pass method is proved against a specification function (`FileSettings`,
  `EnvPass`, `FlagPass`). `LoadConfigWith`, the body of `LoadConfig` with
  its logger as a parameter, is proved against `Resolve` (the returned
  configuration or error) and against `Trace` (the entries handed to the
  logger, of which the logger's level decides which are written). The
  properties are lemmas about those functions.
- **Login** (`login.dfy`, `cmd/wr11s-router-exporter.go`). `login` does the
  following:
  - rejects an empty user name or password before any request;
  - encodes both credentials as padded URL-safe base64 of their UTF-8
    bytes;
  - posts the form `isTest=false`, `goformId=LOGIN`, `username`,
    `password` to `<base>/goform/goform_set_cmd_process`;
  - decodes the reply into `LoginState`, whose `result` is an `int`
    carried as a JSON string;
  - treats result 0 as success and any other code as a rejection.

  The HTTP exchange is a parameter, `post: Request -> Response`.
- Supporting modules:
  - `base64url.dfy`: RFC 4648 section 5 encoding, with a decoder as its
    inverse.
  - `utf8.dfy`: UTF-8 encoding of a string, the Go conversion `[]byte(s)`
    for a string that is valid UTF-8.
  - `decimal.dfy`: decimal formatting (`%v` of an `int`) and `strconv.ParseInt(s, 10, 64)`.
  - `wrappers.dfy`: `Option`, `Result` and `Outcome`.

### Behaviour to note

- **Flags always overwrite.** The flag pass binds each field to a flag
  whose default is `""`. Binding writes that default into the field at
  once, so a flag that is not given empties its field. The resolved
  configuration is therefore exactly the flag values
  (`EarlierLayersOverwritten`, `ResolveSucceedsIff`), and the file and
  environment layers show only in the debug entries. The comment at
  `pkg/config/config.go:21` names flags, environment variables and the
  TOML file as sources. The test at `pkg/config/config_test.go:40-43`
  expects the file's values to survive a set environment. In the code the
  environment replaces them, and the flag pass then empties all three
  fields.
- **A bad TOML file is fatal.** If `config.toml` cannot be opened or
  parsed, loading fails with the TOML stage's error
  (`TomlFailureIsFatal`).
- **A missing result counts as success.** A reply that does not set
  `result` leaves it at the zero value 0, which `login` takes as success
  (`UnsetResultCountsAsSuccess`).
- **Debug entries are dropped.** `logrus.New()` starts at level Info, so
  `LoadConfig` writes only the error entries
  (`DefaultLevelWritesOnlyTheError`). The entries handed to a logger are
  `Trace` of the inputs (`LoadConfigWith`), and every one of them masks
  the password (`TraceMasksPassword`, `TraceHidesPassword`).
- **The callers pass a logger.** `main` and the tests call
  `LoadConfig(logger)`, but `LoadConfig` takes no argument and creates
  its own logger. `LoadConfigWith` is its body with the logger as a
  parameter; `LoadConfig` calls it with a new logger at level Info.

## Model

| member | source | states |
|---|---|---|
| Configuration.Config.constructor | pkg/config/config.go:23 | a new record has all three fields empty |
| Configuration.Config.LoadConfigFromToml | pkg/config/config.go:56-84 | an unusable file returns its cause and leaves the record unchanged; a loaded file sets all three fields; one entry is handed to the logger, an error entry or a debug entry with the masked password |
| Configuration.Config.LoadConfigFromEnv | pkg/config/config.go:87-111 | the record becomes `EnvPass` of the old record; one debug entry is handed to the logger |
| Configuration.Config.LoadConfigFromFlags | pkg/config/config.go:114-129 | the record becomes the supplied flag values, with `""` for each absent flag; one debug entry is handed to the logger |
| Configuration.Logger.Log | pkg/config/config.go:60 | an entry is appended exactly when the logger's level admits it |
| Configuration.ValidateConfig | pkg/config/config.go:132-146 | no error exactly when all three fields are non-empty; otherwise the message names the first empty field in the order address, user name, password |
| Configuration.LoadConfig | pkg/config/config.go:22-53 | returns a fresh record exactly when there is no error; the record or the error is `Resolve` of the inputs; the entries written are `Trace` of the inputs filtered at Info level |
| Configuration.LoadConfigWith | pkg/config/config.go:22-53 | the same result as `LoadConfig`, for a given logger: the logger receives the entries of `Trace` of the inputs that its level admits, appended to what it held |
| Configuration.Emitted | pkg/config/config.go:26 | the logger never writes more entries than it is handed |
| Configuration.EmittedMembers | pkg/config/config.go:26 | the written entries are exactly the handed entries that the level admits |
| Configuration.DebugLevelWritesEverything | pkg/config/config.go:26 | a logger at debug level writes every entry it is handed |
| Configuration.EmittedAppend | pkg/config/config.go:26 | filtering by level distributes over a sequence of log calls |
| Configuration.EnvPassOverridesOnlyWhenSet | pkg/config/config.go:93-102 | a field takes its variable's value exactly when that value is non-empty, and otherwise keeps its old value, so the pass never empties a field |
| Configuration.TomlFailureIsFatal | pkg/config/config.go:29-32 | an unopenable or malformed file makes loading fail with the TOML stage prefix and the cause; only the file pass's error entry is issued |
| Configuration.EarlierLayersOverwritten | pkg/config/config.go:114-120 | once the file loads, neither the file contents nor the environment change the result |
| Configuration.ResolveSucceedsIff | pkg/config/config.go:22-53 | loading succeeds if and only if the file loads and all three flags are given non-empty; the result is then the flag values |
| Configuration.FirstMissingFieldReported | pkg/config/config.go:46-50 | the validation error names the first missing field in the fixed order, wrapped with the validation stage prefix |
| Configuration.TraceMasksPassword | pkg/config/config.go:77-81 | every entry issued that has a password field shows `*****` |
| Configuration.TraceHidesPassword | pkg/config/config.go:104-126 | the entries issued are the same for inputs that differ only in password values, as long as the resolved password stays empty or stays non-empty |
| Configuration.DefaultLevelWritesOnlyTheError | pkg/config/config.go:25-26 | at the default level nothing is written on success; on failure exactly one error entry is written, and it matches the returned error |
| RouterLogin.DecodeQuotedInt | cmd/wr11s-router-exporter.go:15-17 | for each form of the quoted text: `null` leaves the field unset; a string literal as Go's decoder unquotes it (the escapes of RFC 8259 plus `\'`) is a string type error; text starting with `-` or a digit is accepted with its value exactly when it is a 64-bit decimal, and is a number type error otherwise; any other text misuses the `,string` option |
| RouterLogin.DecodeLoginState | cmd/wr11s-router-exporter.go:50-54 | for each shape of body: malformed JSON is a syntax error, a non-object a type error, a `null` document or a missing or `null` result gives 0, an unquoted result is an error, and a quoted result decodes or fails as `DecodeQuotedInt` says; a decoded result is in the 64-bit range |
| RouterLogin.Set | cmd/wr11s-router-exporter.go:31-35 | the key maps to exactly the one value; other keys are unchanged |
| RouterLogin.LoginForm | cmd/wr11s-router-exporter.go:30-35 | the form has exactly the keys `isTest`, `goformId`, `username` and `password`, holding `false`, `LOGIN` and the two encoded credentials |
| RouterLogin.LoginUrl | cmd/wr11s-router-exporter.go:36 | the URL is the base URL followed by the login path |
| RouterLogin.Interpret | cmd/wr11s-router-exporter.go:38-59 | a transport failure and a read failure give their own errors with the cause, before any decoding; a body gives success exactly when it decodes to result 0, `ParseFailed` with the decoder's error when it does not decode, and a rejection with the result otherwise |
| RouterLogin.Login | cmd/wr11s-router-exporter.go:19-60 | no request is sent exactly when a credential is empty, and the outcome is then the credentials error; otherwise one request goes to the login URL with the login form, and the outcome is `Interpret` of its response |
| RouterLogin.EncodeCredential | cmd/wr11s-router-exporter.go:26-28 | an encoded credential decodes back to its UTF-8 bytes, has the padded length and uses only the URL-safe alphabet and `=` |
| RouterLogin.LoginFormInjective | cmd/wr11s-router-exporter.go:27-35 | two forms are equal if and only if their user names and their passwords are equal |
| RouterLogin.ResultCodeRoundTrip | cmd/wr11s-router-exporter.go:50-59 | any 64-bit code sent as a quoted decimal is decoded to itself; 0 is success and every other code a rejection with that code |
| RouterLogin.UnsetResultCountsAsSuccess | cmd/wr11s-router-exporter.go:50-56 | a reply that leaves `result` unset (missing, `null` or a `null` document) is a successful login |
| RouterLogin.RejectedMessageCarriesCode | cmd/wr11s-router-exporter.go:57-58 | the rejection message is the fixed prefix, the code in decimal and the fixed suffix, and the code parses back from it |
| RouterLogin.LoginError.Message | cmd/wr11s-router-exporter.go:22-58 | each kind of error has its own fixed head (told apart by its first and seventh characters); a transport or read failure ends with its cause, and a JSON failure with the decoder's message |
| RouterLogin.MessageIdentifiesError | cmd/wr11s-router-exporter.go:22-58 | equal messages mean the same kind of error; for every kind except a JSON failure, equal messages mean the same error |
| RouterLogin.ReplyExamples | cmd/wr11s-router-exporter.go:50-59 | the quoted results `"0"`, `"1"` and `"-1"` give success, rejection 1 and rejection -1 |
| RouterLogin.MalformedReplyExamples | cmd/wr11s-router-exporter.go:50-54 | a body that is not JSON, an unquoted result, `"3x"` and `"+3"` are parse failures, each with the decoder's error for that case |
| RouterLogin.StringReplyExamples | cmd/wr11s-router-exporter.go:50-54 | the quoted JSON strings `"5"` and `"\'"` are parse failures with the string type error |
| RouterLogin.CredentialExample | cmd/wr11s-router-exporter.go:27 | the bytes of `testuser` encode as `dGVzdHVzZXI=` |
| Base64Url.DecodeEncode | cmd/wr11s-router-exporter.go:27-28 | decoding the encoding of any byte string gives it back |
| Base64Url.Encode | cmd/wr11s-router-exporter.go:27-28 | the encoding has four characters for every started group of three bytes |
| Base64Url.EncodeIsUrlSafe | cmd/wr11s-router-exporter.go:27-28 | the encoding uses only the 64 URL-safe characters and `=`; it never contains `+` or `/` |
| Base64Url.EncodeInjective | cmd/wr11s-router-exporter.go:27-28 | different byte strings have different encodings |
| Utf8.Encode | cmd/wr11s-router-exporter.go:27 | the byte string is one to four bytes per character; for ASCII text, each byte is the character's code |
| Utf8.EncodeInjective | cmd/wr11s-router-exporter.go:27-28 | different strings have different byte strings |
| Decimal.FormatInt | cmd/wr11s-router-exporter.go:58 | the decimal text is non-empty, starts with `-` exactly for a negative number, is otherwise all digits, and has no leading zero |
| Decimal.ParseInt64 | cmd/wr11s-router-exporter.go:16 | a text is accepted exactly when, after at most one leading `+` or `-`, it is one or more digits whose signed value is within the signed 64-bit range, and the result is that signed value |
| Decimal.FormatParseRoundTrip | cmd/wr11s-router-exporter.go:16 | parsing the decimal text of any 64-bit number gives the number back |
| Decimal.FormatIntInjective | cmd/wr11s-router-exporter.go:58 | different 64-bit numbers have different decimal texts |

## Left out

- HTTP: `http.PostForm`, the transport, closing the body and the
  wire encoding of the form (`url.Values.Encode` escapes `=` as `%3D`). The
  exchange is the parameter `post` and its result is a `Response`.
- JSON text parsing. A body is given by its shape (`JsonBody`): not
  well-formed, not an object, `null`, or an object whose `result` member is
  absent, `null`, a string or some other value. Go matches field names
  without regard to case and the last duplicate key wins; the model's
  `result` member is the one the decoder assigns. Messages that the JSON
  decoder produces for syntax and type errors are carried as given.
- Non-UTF-8 credentials: a Go string may hold any bytes, and `[]byte(s)`
  passes them through unchanged. A Dafny string holds Unicode scalar
  values only, so a credential from the environment or the command line
  that is not valid UTF-8 is outside the model.
- RouterLogin.DecodeQuotedInt: the `%q` escaping that Go applies to the
  offending text in the "invalid use of ,string struct tag" message is not
  modelled; the text appears between plain quotes.
- TOML parsing and its messages: the file is given as unopenable,
  malformed (each with its cause) or as a table with three string keys. A
  table that lacks a key, or holds a non-string value, makes the
  type assertion at `pkg/config/config.go:73-75` panic. That case is not
  modelled.
- `os.Getenv`, `os.Args` and pflag parsing: the environment is a map and
  the flags are given values. pflag's handling of bad arguments
  (`ExitOnError` ends the process) is not modelled. The error branches
  for the environment and flag stages (`pkg/config/config.go:35-44`) never
  fire, because both passes always return nil.
- logrus output formatting: an entry is modelled as its level, message
  and fields.
- `main` in `cmd/wr11s-router-exporter.go` and `main.go`. The call
  `config.LoadConfig(logger)` in `main` does not match the signature of
  `LoadConfig`, which takes no argument, and `main.go` is not part of this
  model.
- Go's `int` is taken to be 64 bits wide.
