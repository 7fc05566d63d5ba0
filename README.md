# freshrss-cleaner, modelled in Dafny

freshrss-cleaner is a command-line tool that logs into a FreshRSS instance
and marks as read, feed by feed, the entries older than a configured number
of days. This project models its three cores and proves what they promise:

- **the API client** (`client.go`): building a `Client` from options and
  validating it, the token request and the parsing of the token endpoint's
  reply, and the mark-all-as-read request with its argument checks, its
  microsecond cutoff and its headers (module `Client`, with the string
  helpers it needs in module `Text`);
- **the cleaner** (`cleaner.go`): building a `Cleaner` from options and
  validating it, and the run that fetches one token and then issues one
  mark-as-read call per configured feed, in order, carrying on past failed
  feeds (module `Freshrss`);
- **the loader's placeholder substitution** (`loader.go`): every
  `env("NAME")` in the raw configuration text is replaced by the value of
  the environment variable NAME, and `Load` rejects an empty path before
  reading anything (module `Config`, which also holds `RootConfig` and
  `FeedConfig` from `config.go`).

Files: `wrappers.dfy` (Option, Result, Outcome), `text.dfy`, `config.dfy`,
`client.dfy`, `cleaner.dfy`.

How the outside world enters the model:

- The network is a parameter `server: Request -> Exchange`: the client
  builds a `Request` value (verb, URL, query, header and form as key to
  list-of-values maps, like `url.Values` and `http.Header`), and the server's
  answer is a transport failure or a status, a body and a possible
  body-read error.
- The clock is a parameter `shiftedNanos: int -> int`, the Unix time in
  nanoseconds of "now moved back by `days` calendar days".
- `url.ParseRequestURI` is a parameter `parseRequestURI: string ->
  Outcome<string>` (accepted, or rejected with its error text).
- `os.Getenv` is a map `Environment`; reading the file and parsing YAML in
  `Load` are function parameters.
- The `API` interface of `cleaner.go` is the class `Freshrss.Api`. It records
  every call in its `calls` trace and answers with functions of that trace
  given when it is created. Every implementation, the HTTP client included,
  answers as one such function does, so the cleaner's properties hold for
  all of them. The three `Scenario…` methods replay a run over two feeds in
  which every call succeeds, the token is refused, or the first feed fails.

The base URL is checked with `url.ParseRequestURI`, which accepts an
absolute URL and also an absolute path such as `/rss`; the model leaves
that verdict to the parameter and adds no stricter check.

## Model

| member | source | states |
|---|---|---|
| `Text.TrimRightSlashes` | internal/freshrss/client/client.go:48-53 | the result is a prefix of the input, does not end in '/', and everything the input has after it is '/' (so the input is the result followed only by slashes) |
| `Text.Split` | internal/freshrss/client/client.go:133 | splitting on '\n' gives one piece more than there are newlines, no piece holds a newline, and joining the pieces back gives the body |
| `Text.SplitJoin` | internal/freshrss/client/client.go:133 | splitting lines joined with '\n' gives back those lines, when none holds a '\n' |
| `Text.FormatIntRoundTrip` | internal/freshrss/client/client.go:166 | the `%d` rendering of the cutoff in the `ts` field reads back as the same integer, negative values included |
| `Client.UnauthorizedMessage` | internal/freshrss/client/client_test.go:115 | a 401 reply with body "Unauthorized!\n" gives the error text "request failed with status code 401: Unauthorized!\n" |
| `Client.Settings.Validate` | internal/freshrss/client/client.go:24-42 | valid exactly when the base URL is non-empty and parses, and username and password are non-empty; each error is reported exactly when every earlier check passed and its own fails, in the order base URL empty, base URL unparsable (with the parser's message), username empty, password empty |
| `Client.ConfigureUntouched` | internal/freshrss/client/client.go:86-88 | options applied later that do not set a field leave that field as the earlier options left it |
| `Client.LastBaseURLWins` | internal/freshrss/client/client.go:48-53 | the last `WithBaseURL` decides the base URL, with its trailing slashes removed |
| `Client.LastCredentialsWin` | internal/freshrss/client/client.go:56-61 | the last `WithCredentials` decides username and password |
| `Client.LastTimeoutWins` | internal/freshrss/client/client.go:71-78 | the last `WithTimeout` not followed by `WithHTTPClient` leaves an HTTP client with that timeout, whether or not one was set before |
| `Client.DefaultTimeoutKept` | internal/freshrss/client/client.go:82-84 | without `WithTimeout` or `WithHTTPClient` the HTTP client keeps the 30-second timeout |
| `Client.BaseURLHasNoTrailingSlash` | internal/freshrss/client/client.go:48-53 | whatever options are applied, the stored base URL is empty or does not end in '/', so the endpoint paths join it with a single '/' |
| `Client.Client.constructor` | internal/freshrss/client/client.go:82-84 | a new client has empty URL and credentials and an HTTP client with a 30-second timeout |
| `Client.Client.Apply` | internal/freshrss/client/client.go:47-78 | running an option's closure changes the fields exactly as `ApplyOption` says: trimmed URL, both credentials, the given HTTP client, or a timeout set on the existing (or a new) HTTP client |
| `Client.New` | internal/freshrss/client/client.go:81-95 | returns a client exactly when validation of the options applied left to right succeeds; the client's fields are those of the options; otherwise the error is validation's first failure wrapped as an invalid client configuration |
| `Client.FirstAuthLine` | internal/freshrss/client/client.go:138-142 | finds the first line that starts with `Auth=`: none exactly when no line does; otherwise that line starts with it and no earlier line does |
| `Client.ParseAuthBody` | internal/freshrss/client/client.go:133-144 | fewer than two newlines gives "unexpected auth response format" even when an `Auth=` line is there; "auth token not found in response" exactly when there are enough lines and none starts with `Auth=`; a token holds no newline and is the rest of the first `Auth=` line |
| `Client.TokenFromLines` | internal/freshrss/client/client.go:133-142 | a body of three or more lines whose first `Auth=` line is `Auth=<t>` yields exactly `t` |
| `Client.ParseAuthReply` | internal/freshrss/client/client.go:116-144 | a transport failure gives the execution error; a non-200 status gives the status and the raw body and the body is not parsed; a failed read of a 200 body is an error; a 200 body that was read gives exactly what parsing it gives, its error included; the token is returned exactly when the status is 200, the body was read and it parses |
| `Client.Client.GetAuthToken` | internal/freshrss/client/client.go:104-145 | the request sent is `AuthRequest`; a transport failure, a non-200 status (with its body) and a failed body read are reported in that order before the body is parsed; a 200 body that was read gives exactly what `ParseAuthBody` gives: the first `Auth=` line's token, "unexpected auth response format" or "auth token not found in response" |
| `Client.SetAuthHeaders` | internal/freshrss/client/client.go:98-102 | sets `Authorization: GoogleLogin auth=<token>` for a non-empty token, leaves the header untouched for an empty one, and never changes another header |
| `Client.MicrosFromNanos` | internal/freshrss/client/client.go:158 | the nanosecond instant divided by 1000 rounding toward zero: the remainder is below 1000 and has the sign of the instant |
| `Client.MarkRequest` | internal/freshrss/client/client.go:161-176 | a POST to the base URL followed by `/reader/api/0/mark-all-as-read`, with form fields exactly `s` (the feed ID) and `ts` (the cutoff, readable back as that number), the form content type, and a header holding only `Content-Type` and, exactly when the token is non-empty, `Authorization` |
| `Client.Client.AuthRequest` | internal/freshrss/client/client.go:106-114 | the token request is a GET of the base URL followed by `/accounts/ClientLogin` with exactly the query parameters `Email` and `Passwd` carrying the credentials |
| `Client.Client.MarkAsRead` | internal/freshrss/client/client.go:148-191 | an empty token fails "auth token is required" before the feed ID is looked at; then an empty feed ID fails "feed ID is required"; otherwise the request for the feed and the truncated cutoff is sent and the call succeeds exactly when the reply's status is 200, non-200 reporting status and body |
| `Client.MissingArgumentSendsNothing` | internal/freshrss/client/client.go:149-155 | with an empty token or feed ID the outcome is a failure that is the same for every server and every clock: no request is sent |
| `Config.Getenv` | internal/config/loader.go:31-33 | the value of a set variable; the empty string for an unset one |
| `Config.MatchAt` | internal/config/loader.go:14 | a match found at the start of the text has a non-empty name free of '"' and the text starts with `env("name")` |
| `Config.PlaceholderMatches` | internal/config/loader.go:14 | `env("name")` with a non-empty, quote-free name is matched wherever it stands, with that name |
| `Config.EmptyNameNotMatched` | internal/config/loader.go:14 | `env("")` is not a match |
| `Config.Tokenize` | internal/config/loader.go:24 | every placeholder the scan finds has a non-empty name free of '"' |
| `Config.TokenizeSource` | internal/config/loader.go:24 | the scan loses nothing: its pieces spell out the original text |
| `Config.ReplaceEnv` | internal/config/loader.go:21-37 | the one-pass substitution equals rendering the scanner's pieces (each placeholder by its variable's value, `""` when unset, every other character copied); with `TokenizeSource` those pieces spell out the input |
| `Config.ReplaceEnvNoMatch` | internal/config/loader.go:24-36 | text without any placeholder is returned unchanged |
| `Config.ReplaceEnvKeepsPrefix` | internal/config/loader.go:24-36 | text in which no placeholder starts is kept verbatim in front of the substituted rest |
| `Config.ReplaceEnvAtPlaceholder` | internal/config/loader.go:24-36 | a placeholder at the start is replaced by its value and the rest is substituted on its own |
| `Config.ReplaceEnvLeftmost` | internal/config/loader.go:24-36 | the leftmost placeholder is replaced by its value, the text before it is kept, the text after it is substituted independently, and the inserted value is not rescanned |
| `Config.ReplaceEnvPlaceholder` | internal/config/loader.go:24-36 | a lone `env("NAME")` becomes the value of NAME (the empty string when unset), even when that value itself looks like a placeholder |
| `Config.ReplaceEnvEmptyName` | internal/config/loader.go:14 | `env("")` is left as it is |
| `Config.Load` | internal/config/loader.go:43-64 | an empty path fails "config path cannot be empty"; a read failure is reported with the path; a parse failure is reported with the path and the parser's error; the load succeeds exactly when the path is non-empty, the read succeeds and the substituted text parses, and then the configuration is what the YAML parser made of it |
| `Config.LoadEmptyPathReadsNothing` | internal/config/loader.go:44-46 | with an empty path the result is the same failure whatever the file system holds |
| `Freshrss.Api.constructor` | internal/freshrss/cleaner.go:12-15 | an API double starts with an empty call trace and the given answers |
| `Freshrss.Api.GetAuthToken` | internal/freshrss/cleaner.go:13 | the call is appended to the trace and answered from the trace |
| `Freshrss.Api.MarkAsRead` | internal/freshrss/cleaner.go:14 | the call, with its token, feed ID and days, is appended to the trace and answered from the trace |
| `Freshrss.AuthTokenFailedMessage` | internal/freshrss/cleaner.go:70-73 | the error of a failed token fetch starts with "failed to get auth token" and ends with the cause's text |
| `Freshrss.PlanAt` | internal/freshrss/cleaner.go:75-83 | the calls made for the feeds are one per feed, the k-th carrying the token and the k-th feed's ID and days |
| `Freshrss.PlanSnoc` | internal/freshrss/cleaner.go:75-83 | one more feed adds exactly one more call at the end |
| `Freshrss.PlanFetchesNoToken` | internal/freshrss/cleaner.go:70-83 | no token is fetched while the feeds are processed |
| `Freshrss.Cleaner.constructor` | internal/freshrss/cleaner.go:54 | a new cleaner has neither client nor configuration |
| `Freshrss.Cleaner.Validate` | internal/freshrss/cleaner.go:24-34 | valid exactly when both are set; "client is required" exactly when the client is missing, whatever the configuration; "config is required" exactly when only the configuration is missing |
| `Freshrss.Cleaner.Apply` | internal/freshrss/cleaner.go:37-47 | `WithClient` sets the client and `WithConfig` the configuration, each leaving the other field alone |
| `Freshrss.Cleaner.ProcessFeed` | internal/freshrss/cleaner.go:88-90 | exactly one mark-as-read call, with the token and the feed's ID and days |
| `Freshrss.Cleaner.CleanOldEntries` | internal/freshrss/cleaner.go:68-86 | the token is fetched once, first; if that fails the run fails "failed to get auth token" and makes no other call; otherwise the calls after it are exactly one per feed in declared order, whatever each answers, and the run succeeds, also for an empty feed list |
| `Freshrss.NewCleaner` | internal/freshrss/cleaner.go:53-65 | succeeds exactly when, after the options are applied in order, both a client and a configuration are set; a missing client is reported before a missing configuration, each wrapped as an invalid cleaner configuration |

## Left out

- HTTP transport, `context` cancellation and the enforcement of timeouts: a request is a value and its reply a parameter; the timeout is only recorded.
- Failure to create a request (`NewRequestWithContext`, client.go:106-109 and 169-172): the URL has already been validated and a context is always given.
- The percent-encoding of query and form by `Encode`, its ordering of keys, and merging with a query string already present in the base URL: query and form are kept as key to values maps.
- Canonicalisation of header names: the model only uses names already in canonical form.
- `url.ParseRequestURI` itself: its verdict is a parameter.
- `time.Now` and `AddDate`: the shifted instant is a parameter, and its range (the instants an int64 of nanoseconds can hold) is not enforced.
- The partial body `io.ReadAll` returns along with a read error on a non-200 reply is the `body` of the exchange.
- Client.ApplyOption: an `*http.Client` is reduced to the value of its timeout, so when `WithTimeout` follows `WithHTTPClient(h)` the model does not show that the caller's own `h` is changed too.
- Client.Client.GetAuthToken: `WithHTTPClient(nil)` leaves `httpClient` as `None`, which `Validate` does not look at; in Go the token request then calls `Do` on a nil `*http.Client` and panics, while the model sends the request to `server` and returns its answer. A panic is not modelled.
- Client.Client.MarkAsRead: with `httpClient` `None` the empty-token and empty-feed-ID checks still fail as modelled, since they run before `Do`; past them Go panics on the nil `*http.Client`, while the model sends the request to `server` and returns its answer. A panic is not modelled.
- Freshrss.Api: Go's dynamic dispatch over the `API` interface is represented by one class whose answers are data; a typed nil pointer wrapped in a non-nil interface (which passes the "client is required" check in Go) is not represented.
- The structured log lines `CleanOldEntries` writes for each feed and each failure.
- `os.ReadFile` and `yaml.Unmarshal` in `Load`: given as function parameters.
- The `len(matches) < 2` branch of `replaceEnv`: it cannot be taken, since every match has its capture group.
- Byte strings: `replaceEnv` works on the bytes of the file; the model works on characters. The delimiters `env("` and `")` are ASCII, which never occurs inside a multi-byte UTF-8 sequence, so the matches are the same.
- `DefaultConfigFilePath` and `CreateDefaultConfigFile` in config.go (file-system plumbing) and the command-line wiring under `cmd/` are not part of this model.
