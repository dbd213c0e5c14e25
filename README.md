# Share pipeline variables: a Dafny model

This project models the core of a CI pipeline step that shares environment
variables with later stages of a build. The step reads its `variables`
input: one `KEY=value` or bare `KEY` per line. It turns the input into an
ordered list of records `(key, value, sensitive)`, taking the value of a
record with an empty value part from the process environment. A record is
sensitive when its key is on the list of secret keys. The step then POSTs the
list to the build API at `<app URL>/pipeline/workflow_builds/<build slug>/env_vars`.
A 2xx status means success. Any other status gives an error naming the
status and, when the server supplied one, its `error_msg`.

Modules:

- `Wrappers`: `Option` and `Result`.
- `GoStrings`: the Go library functions the parser depends on. These are
  `strings.Split`, `strings.Cut` and `strings.TrimSpace` with `unicode.IsSpace`,
  over strings as sequences of Unicode scalar values. `IsSpace` is the
  exact Unicode White_Space set, not an ASCII approximation.
- `Decimal`: `%d` formatting of the status code, and its inverse.
- `Api` (api/api.go): the client's endpoint URL, the request body as the
  JSON value its struct tags produce, `checkEnvVarShareResponse`, and
  `ShareEnvVars`, which takes the transport's outcome as a parameter.
- `Step` (step/step.go): `parseEnvVars` as the method `ParseEnvVars`, proved
  equal to the function `Parse`. Properties of `Parse` are stated against
  an independent description: `Entries`, the trimmed non-blank lines, and
  `Describes`, the record a line stands for. `APIEnvVars`,
  `ProcessConfig` and `Run` are methods too.

The environment lookup is a parameter `env: string -> string`. Like
`os.Getenv`, it answers `""` for an unset key. The secret-key list is a
parameter `secretKeys: seq<string>`. The input parser's outcome is a
parameter `parsed: Result<Input, string>` of `ProcessConfig`.

The environment is consulted whenever the value part of a line is empty:
for a bare `KEY` and for `KEY=` alike (step/step.go:120-122).

## Model

| member | source | states |
|---|---|---|
| `GoStrings.IndexOf` | step/step.go:115 | the result is absent exactly when the character does not occur; otherwise it is the position of its first occurrence |
| `GoStrings.Split` | step/step.go:107 | there is at least one piece, and no piece contains the separator |
| `GoStrings.JoinSplit` | step/step.go:107 | joining the pieces with the separator gives back the input |
| `GoStrings.SplitJoin` | step/step.go:107 | splitting a join of separator-free pieces gives back those pieces |
| `GoStrings.SplitCount` | step/step.go:107 | there is one more piece than there are separators in the input |
| `GoStrings.SplitChars` | step/step.go:107 | every character of every piece occurs in the input |
| `GoStrings.Cut` | step/step.go:115 | `found` holds exactly when the separator occurs; then the input is before + separator + after, with no separator before it; otherwise before is the whole input and after is empty |
| `GoStrings.TrimSpace` | step/step.go:109 | the result is the input without its leading and trailing white space; it is a substring, it starts and ends with non-space, and it is empty exactly when the input is all white space |
| `GoStrings.TrimSpaceOf` | step/step.go:109 | white space around a text that neither starts nor ends with white space is removed, and the text itself is kept whole |
| `Decimal.NatToDecimal` | api/api.go:75 | the text is non-empty, all digits, with no leading zero |
| `Decimal.IntToDecimal` | api/api.go:75 | the `%d` text is non-empty, starts with `-` exactly for a negative number, is digits otherwise, and has no leading zero (`0` alone is `"0"`); with `IntRoundTrip` this is the canonical decimal text |
| `Decimal.IntRoundTrip` | api/api.go:75 | reading the `%d` text of a status code gives the code back |
| `Api.NewBitriseClient` | api/api.go:22-32 | the URL starts with the app URL, followed by `/pipeline/workflow_builds/<slug>/env_vars`; the slug can be read back from it; the token is kept |
| `Api.EndpointInjective` | api/api.go:24 | two build slugs under one app URL never give the same endpoint |
| `Api.EncodeRequest` | api/api.go:34-42 | the body is one member `shared_envs`: `null` exactly when there are no records (the nil slice), otherwise an array with one element per record |
| `Api.RequestRoundTrip` | api/api.go:34-45 | the receiver reads the request body back under `shared_envs`, `key`, `value` and `is_sensitive` as exactly the records sent, in order |
| `Api.StatusError` | api/api.go:75 | the text is `request to <url> failed: status code should be 2xx (`, then exactly the code's `%d` text, then `)` |
| `Api.CheckEnvVarShareResponse` | api/api.go:71-92 | no error exactly for a status in [200, 300); an unreadable or non-string-map body, or a missing or empty `error_msg`, gives exactly `request to <url> failed: status code should be 2xx (<code>)`; a non-empty `error_msg` is appended after `, message: ` |
| `Api.ErrorRoundTrip` | api/api.go:75-89 | every error text can be read back into the status code and into the server's message ("" when none was shown) |
| `Api.ShareEnvVars` | api/api.go:44-69 | POSTs to the client's URL with the JSON content type and the token header; the body holds the records unchanged; a transport failure is returned as it is; otherwise the result is the response check, with no error exactly for 2xx |
| `Step.ParseEnvVars` | step/step.go:104-133 | the loop returns what `Parse` specifies for the input |
| `Step.ParseLinesBounds` | step/step.go:106-133 | at most one record per line, and an error always quotes one of the trimmed lines |
| `Step.ParseBounds` | step/step.go:104-133 | at most one record per line of the input (newlines plus one), and an error always quotes one of its trimmed lines |
| `Step.ParseEntry` | step/step.go:115-124 | a trimmed line is rejected exactly when it is empty or starts with `=`, with the error quoting it; otherwise its record is the one `Describes` pins down |
| `Step.LinesAreEntries` | step/step.go:108-113 | lines that are blank after trimming contribute nothing: parsing the lines is parsing their trimmed non-blank entries |
| `Step.EntriesSucceedIff` | step/step.go:116-119 | parsing a list of entries succeeds exactly when none of them starts with `=` |
| `Step.EntriesRecords` | step/step.go:115-130 | a successful parse of entries has one record per entry, in order, each the one its entry describes |
| `Step.EntriesFailure` | step/step.go:116-119 | a failed parse of entries reports the first entry that starts with `=` |
| `Step.ParseSucceedsIff` | step/step.go:107-119 | parsing succeeds exactly when no trimmed non-blank line starts with `=` |
| `Step.ParseRecordsFollowEntries` | step/step.go:107-130 | on success there is exactly one record per trimmed non-blank line, in line order. Its key is the line up to the first `=` and its value is everything after it, including later `=`, with nothing else trimmed. An empty value part is replaced by the environment's value of the key. The record is sensitive exactly when its key is a secret key |
| `Step.ParseFailureNamesFirstRejectedLine` | step/step.go:115-119 | on failure no records are returned, and the error is `env var should be in a format: KEY=value or KEY: ` followed by the first line that starts with `=` |
| `Step.ParsedKeysWellFormed` | step/step.go:115-119 | every record's key is non-empty, contains no `=` and does not start with white space |
| `Step.DescribesUnique` | step/step.go:115-124 | a line describes at most one record |
| `Step.ParseOfDescribedRecords` | step/step.go:104-133 | conversely, any list of records that the lines describe one for one is the parse |
| `Step.WhitespaceOnlyInputIsEmpty` | step/step.go:109-113 | an input of white space and newlines only gives an empty list and no error |
| `Step.OneLineEntries` | step/step.go:107-113 | a single line with no white space at either end is the input's only entry |
| `Step.OneAssignment` | step/step.go:115-124 | `KEY=value` on one line gives the key before the first `=` and the value after it verbatim. Later `=` characters and the spaces next to the `=` stay in the key and the value, so `K = v` gives key `K ` and value ` v`. An empty value is read from the environment |
| `Step.OneBareKey` | step/step.go:120-122 | a bare `KEY` takes its value from the environment |
| `Step.OneLineWithoutKey` | step/step.go:116-119 | a line starting with `=` fails the parse with the error quoting it |
| `Step.APIEnvVars` | step/step.go:35-45 | the projection keeps the length, the order and each record's key, value and sensitivity |
| `Step.ProcessConfig` | step/step.go:63-89 | an input-parser error or a parse error is returned as it is; otherwise the configuration holds the parsed records and the app URL, build slug and token inputs, and every key is non-empty and has no `=` |
| `Step.Run` | step/step.go:91-102 | the request is a POST to the build's endpoint with the JSON content type and the build token, and carries every record in order; the error is the transport's failure as it is, or the response check of the answer, so there is none exactly for a 2xx status |

## Left out

- The HTTP transport is left out: `http.NewRequest`, `httpClient.Do` and the
  `retryhttp` retry client (api/api.go:23, 52-63). They are network I/O and a
  foreign library. Their result is the parameter `Api.Transport`: a failure
  to send, or a status and a body outcome. A failing `http.NewRequest`
  counts as a failure to send.
- The header names are kept as written. Go's canonicalisation of header names
  is library behaviour and is not modelled.
- JSON text is not modelled, in either direction. The request body is the JSON
  value the struct tags give (`Api.EncodeRequest`); its text serialisation is
  left out. The response body is the abstract outcome `Api.ResponseBody`:
  unreadable, not a map of strings, or a map of strings.
- `json.Marshal` cannot fail on these types, so its error path
  (api/api.go:47-50) has no counterpart.
- An empty record list is encoded as JSON `null`. That is what Go does with
  the nil slice `APIEnvVars` returns when there are no records. A caller
  passing a non-nil empty slice would get `[]`; sequences have no nil, so the
  model does not make that distinction.
- `Api.CheckEnvVarShareResponse` takes the request URL as a parameter, and
  `ShareEnvVars` passes the client's URL. Redirects followed by the HTTP
  client, and any change that parsing and printing the URL would make, are
  not modelled.
- The input parser (`stepconf.InputParser.Parse` with its required-field
  checks, step/step.go:65) and the secret-key manager (`secretkeys.Manager.Load`,
  step/step.go:72) are external libraries. Their outcomes are the
  parameters of `Step.ProcessConfig`.
- Logging (`stepconf.Print`, the logger calls) and main.go (exit codes and
  wiring) are not modelled. main.go passes three arguments to
  `NewEnvVarSharer`, which step/step.go:54 declares with four.
- The `EnvVarSharer` value is not modelled as such. Its environment
  repository and secret keys are passed to the operations as parameters.
- Strings are sequences of Unicode scalar values. Go strings that are not
  valid UTF-8 are not modelled.
- Status codes are unbounded integers, not Go's 64-bit `int`. The text is
  the same for every value of that range.
