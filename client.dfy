/**
 * The FreshRSS API client: construction through options and validation, the
 * token request and the parsing of its reply, and the mark-as-read request.
 *
 * The network is a parameter: `server` answers each request the client sends
 * with an `Exchange` (a transport failure, or a status and a body). The clock
 * is a parameter too: `shiftedNanos(days)` is the current instant moved back
 * by `days` calendar days, in nanoseconds since the Unix epoch. The URL
 * parser the validation consults is the parameter `parseRequestURI`, which
 * gives `Pass` for text it accepts and `Fail(message)` otherwise.
 */
module Client {
  import opened Wrappers
  import opened Text

  /** Nanoseconds in a second (`time.Second`). */
  const Second: int := 1_000_000_000

  /** Timeout of the HTTP client a new `Client` starts with. */
  const DefaultTimeout: int := 30 * Second

  const StatusOK: int := 200

  /** The part of an `*http.Client` the options configure: its timeout, in nanoseconds. */
  datatype HttpClient = HttpClient(timeout: int)

  datatype ClientError =
    | BaseURLRequired
    | InvalidBaseURL(cause: string)
    | UsernameRequired
    | PasswordRequired
    | InvalidConfiguration(inner: ClientError)
    | ExecuteAuthRequest(cause: string)
    | AuthRequestFailed(status: int, body: string)
    | ReadAuthBody(cause: string)
    | UnexpectedAuthFormat
    | AuthTokenNotFound
    | AuthTokenRequired
    | FeedIDRequired
    | ExecuteMarkRequest(cause: string)
    | MarkRequestFailed(status: int, body: string)

  /** The text `Error()` gives for each error. */
  function Message(e: ClientError): string
  {
    match e
    case BaseURLRequired => "base URL is required"
    case InvalidBaseURL(cause) => "invalid base URL: " + cause
    case UsernameRequired => "username is required"
    case PasswordRequired => "password is required"
    case InvalidConfiguration(cause) => "invalid FreshRSS client configuration: " + Message(cause)
    case ExecuteAuthRequest(cause) => "error executing auth request: " + cause
    case AuthRequestFailed(status, body) => "request failed with status code " + FormatInt(status) + ": " + body
    case ReadAuthBody(cause) => "error reading auth response body: " + cause
    case UnexpectedAuthFormat => "unexpected auth response format"
    case AuthTokenNotFound => "auth token not found in response"
    case AuthTokenRequired => "auth token is required"
    case FeedIDRequired => "feed ID is required"
    case ExecuteMarkRequest(cause) => "error executing mark-as-read request: " + cause
    case MarkRequestFailed(status, body) =>
      "mark-as-read request failed with unexpected status code " + FormatInt(status) + ": " + body
  }

  /** A 401 reply is reported with its status code and its body verbatim. */
  lemma UnauthorizedMessage()
    ensures Message(AuthRequestFailed(401, "Unauthorized!\n")) == "request failed with status code 401: Unauthorized!\n"
  {
    assert FormatNat(4) == "4";
    assert FormatNat(40) == "40";
    assert FormatNat(401) == "401";
  }

  /** The values of a client's fields. */
  datatype Settings = Settings(baseURL: string, username: string, password: string, httpClient: Option<HttpClient>)
  {
    /**
     * `Validate`: four checks in a fixed order; the first that fails is
     * reported, and the client is valid when none does.
     */
    function Validate(parseRequestURI: string -> Outcome<string>): (r: Outcome<ClientError>)
      ensures r.Pass? <==> baseURL != "" && parseRequestURI(baseURL).Pass? && username != "" && password != ""
      ensures r == Fail(BaseURLRequired) <==> baseURL == ""
      ensures r.Fail? && r.error.InvalidBaseURL? <==> baseURL != "" && parseRequestURI(baseURL).Fail?
      ensures r.Fail? && r.error.InvalidBaseURL? ==> r.error.cause == parseRequestURI(baseURL).error
      ensures r == Fail(UsernameRequired) <==> baseURL != "" && parseRequestURI(baseURL).Pass? && username == ""
      ensures r == Fail(PasswordRequired) <==>
        baseURL != "" && parseRequestURI(baseURL).Pass? && username != "" && password == ""
    {
      if baseURL == "" then Fail(BaseURLRequired)
      else if parseRequestURI(baseURL).Fail? then Fail(InvalidBaseURL(parseRequestURI(baseURL).error))
      else if username == "" then Fail(UsernameRequired)
      else if password == "" then Fail(PasswordRequired)
      else Pass
    }
  }

  /** The options `New` accepts, each a setter of some of the client's fields. */
  datatype ClientOption =
    | WithBaseURL(baseURL: string)
    | WithCredentials(username: string, password: string)
    | WithHTTPClient(httpClient: Option<HttpClient>)
    | WithTimeout(timeout: int)

  /** The fields of the client `New` starts from, before any option. */
  function Defaults(): Settings
  {
    Settings("", "", "", Some(HttpClient(DefaultTimeout)))
  }

  /** What one option does to the fields. */
  function ApplyOption(s: Settings, o: ClientOption): Settings
  {
    match o
    case WithBaseURL(u) => s.(baseURL := TrimRightSlashes(u))
    case WithCredentials(user, pass) => s.(username := user, password := pass)
    case WithHTTPClient(h) => s.(httpClient := h)
    case WithTimeout(d) =>
      var h := if s.httpClient.None? then HttpClient(0) else s.httpClient.value;
      s.(httpClient := Some(h.(timeout := d)))
  }

  /** The fields after applying the options left to right to the defaults. */
  function Configure(opts: seq<ClientOption>): Settings
  {
    if opts == [] then Defaults() else ApplyOption(Configure(opts[..|opts| - 1]), opts[|opts| - 1])
  }

  predicate SetsBaseURL(o: ClientOption) { o.WithBaseURL? }
  predicate SetsCredentials(o: ClientOption) { o.WithCredentials? }
  predicate SetsHttpClient(o: ClientOption) { o.WithHTTPClient? || o.WithTimeout? }

  /** Options that do not set a field leave it as the earlier options left it. */
  lemma {:induction false} ConfigureUntouched(opts: seq<ClientOption>, rest: seq<ClientOption>)
    ensures (forall i :: 0 <= i < |rest| ==> !SetsBaseURL(rest[i])) ==>
      Configure(opts + rest).baseURL == Configure(opts).baseURL
    ensures (forall i :: 0 <= i < |rest| ==> !SetsCredentials(rest[i])) ==>
      Configure(opts + rest).username == Configure(opts).username &&
      Configure(opts + rest).password == Configure(opts).password
    ensures (forall i :: 0 <= i < |rest| ==> !SetsHttpClient(rest[i])) ==>
      Configure(opts + rest).httpClient == Configure(opts).httpClient
    decreases |rest|
  {
    if rest == [] {
      assert opts + rest == opts;
    } else {
      var init := rest[..|rest| - 1];
      assert (opts + rest)[..|opts + rest| - 1] == opts + init;
      assert forall i :: 0 <= i < |init| ==> init[i] == rest[i];
      ConfigureUntouched(opts, init);
    }
  }

  /** The last `WithBaseURL` decides the base URL, with its trailing '/' removed. */
  lemma LastBaseURLWins(opts: seq<ClientOption>, u: string, rest: seq<ClientOption>)
    requires forall i :: 0 <= i < |rest| ==> !SetsBaseURL(rest[i])
    ensures Configure(opts + [WithBaseURL(u)] + rest).baseURL == TrimRightSlashes(u)
  {
    assert (opts + [WithBaseURL(u)])[..|opts|] == opts;
    ConfigureUntouched(opts + [WithBaseURL(u)], rest);
  }

  /** The last `WithCredentials` decides username and password. */
  lemma LastCredentialsWin(opts: seq<ClientOption>, user: string, pass: string, rest: seq<ClientOption>)
    requires forall i :: 0 <= i < |rest| ==> !SetsCredentials(rest[i])
    ensures Configure(opts + [WithCredentials(user, pass)] + rest).username == user
    ensures Configure(opts + [WithCredentials(user, pass)] + rest).password == pass
  {
    assert (opts + [WithCredentials(user, pass)])[..|opts|] == opts;
    ConfigureUntouched(opts + [WithCredentials(user, pass)], rest);
  }

  /** The last `WithTimeout`, if no `WithHTTPClient` follows it, decides the timeout. */
  lemma LastTimeoutWins(opts: seq<ClientOption>, d: int, rest: seq<ClientOption>)
    requires forall i :: 0 <= i < |rest| ==> !SetsHttpClient(rest[i])
    ensures Configure(opts + [WithTimeout(d)] + rest).httpClient == Some(HttpClient(d))
  {
    assert (opts + [WithTimeout(d)])[..|opts|] == opts;
    ConfigureUntouched(opts + [WithTimeout(d)], rest);
  }

  /** Without `WithTimeout` or `WithHTTPClient` the timeout stays 30 seconds. */
  lemma DefaultTimeoutKept(opts: seq<ClientOption>)
    requires forall i :: 0 <= i < |opts| ==> !SetsHttpClient(opts[i])
    ensures Configure(opts).httpClient == Some(HttpClient(30 * Second))
  {
    ConfigureUntouched([], opts);
    assert [] + opts == opts;
  }

  /** However the options are chosen, the base URL never ends in '/'. */
  lemma {:induction false} BaseURLHasNoTrailingSlash(opts: seq<ClientOption>)
    ensures var b := Configure(opts).baseURL; b == "" || b[|b| - 1] != '/'
    decreases |opts|
  {
    if opts != [] {
      BaseURLHasNoTrailingSlash(opts[..|opts| - 1]);
    }
  }

  /** `url.Values` and `http.Header`: each key maps to a list of values. */
  type Values = map<string, seq<string>>

  /** `Add(key, value)`: appends to the key's values. */
  function Add(v: Values, key: string, value: string): Values
  {
    v[key := (if key in v then v[key] else []) + [value]]
  }

  /** `Set(key, value)`: replaces the key's values by the one value. */
  function Set(v: Values, key: string, value: string): Values
  {
    v[key := [value]]
  }

  /** An HTTP request as the client builds it, before encoding. */
  datatype Request = Request(verb: string, url: string, query: Values, header: Values, form: Values)

  /** What came back for a request. `readError` is set when reading the body failed. */
  datatype Exchange =
    | TransportFailed(cause: string)
    | Response(status: int, body: string, readError: Option<string>)

  const LoginPath: string := "/accounts/ClientLogin"
  const MarkAllAsReadPath: string := "/reader/api/0/mark-all-as-read"
  const AuthPrefix: string := "Auth="
  const FormContentType: string := "application/x-www-form-urlencoded"

  /** Index of the first line that starts with `Auth=`, if any. */
  function FirstAuthLine(lines: seq<string>): (r: Option<nat>)
    ensures r.None? <==> forall i :: 0 <= i < |lines| ==> !(AuthPrefix <= lines[i])
    ensures r.Some? ==> r.value < |lines| && AuthPrefix <= lines[r.value]
    ensures r.Some? ==> forall j :: 0 <= j < r.value ==> !(AuthPrefix <= lines[j])
    decreases |lines|
  {
    if lines == [] then None
    else if AuthPrefix <= lines[0] then Some(0)
    else match FirstAuthLine(lines[1..])
      case None => None
      case Some(i) => Some(i + 1)
  }

  /**
   * The body of a 200 reply to the token request: it must split into at least
   * three lines (hold at least two '\n'), and the token is the rest of the
   * first line that starts with `Auth=`.
   */
  function ParseAuthBody(body: string): (r: Result<string, ClientError>)
    ensures Count(body, '\n') < 2 ==> r == Failure(UnexpectedAuthFormat)
    ensures r == Failure(AuthTokenNotFound) <==>
      Count(body, '\n') >= 2 && forall i :: 0 <= i < |Split(body, '\n')| ==> !(AuthPrefix <= Split(body, '\n')[i])
    ensures r.Success? ==> Count(body, '\n') >= 2 && '\n' !in r.value
    ensures r.Success? ==>
      exists i :: 0 <= i < |Split(body, '\n')| && Split(body, '\n')[i] == AuthPrefix + r.value &&
        (forall j :: 0 <= j < i ==> !(AuthPrefix <= Split(body, '\n')[j]))
  {
    var lines := Split(body, '\n');
    if |lines| < 3 then Failure(UnexpectedAuthFormat)
    else match FirstAuthLine(lines)
      case None => Failure(AuthTokenNotFound)
      case Some(i) =>
        var token := lines[i][|AuthPrefix|..];
        assert lines[i] == AuthPrefix + token;
        assert '\n' !in lines[i];
        assert forall k :: 0 <= k < |token| ==> token[k] == lines[i][|AuthPrefix| + k];
        Success(token)
  }

  /** Three or more lines, one of them `Auth=<token>`: the first such token is returned. */
  lemma TokenFromLines(lines: seq<string>, i: nat)
    requires |lines| >= 3 && i < |lines|
    requires forall k :: 0 <= k < |lines| ==> '\n' !in lines[k]
    requires AuthPrefix <= lines[i] && forall j :: 0 <= j < i ==> !(AuthPrefix <= lines[j])
    ensures ParseAuthBody(Join(lines, '\n')) == Success(lines[i][|AuthPrefix|..])
  {
    var body := Join(lines, '\n');
    SplitJoin(lines, '\n');
    assert Split(body, '\n') == lines;
    var first := FirstAuthLine(lines);
    assert first.Some?;
    assert first.value == i;
  }

  /** The reply to the token request, whatever the server sent. */
  function ParseAuthReply(x: Exchange): (r: Result<string, ClientError>)
    ensures x.TransportFailed? ==> r == Failure(ExecuteAuthRequest(x.cause))
    ensures x.Response? && x.status != StatusOK ==> r == Failure(AuthRequestFailed(x.status, x.body))
    ensures x.Response? && x.status == StatusOK && x.readError.Some? ==> r == Failure(ReadAuthBody(x.readError.value))
    ensures r.Success? <==> x.Response? && x.status == StatusOK && x.readError.None? && ParseAuthBody(x.body).Success?
    ensures x.Response? && x.status == StatusOK && x.readError.None? ==> r == ParseAuthBody(x.body)
  {
    match x
    case TransportFailed(cause) => Failure(ExecuteAuthRequest(cause))
    case Response(status, body, readError) =>
      if status != StatusOK then Failure(AuthRequestFailed(status, body))
      else if readError.Some? then Failure(ReadAuthBody(readError.value))
      else ParseAuthBody(body)
  }

  /** `setAuthHeaders`: an `Authorization` header for a non-empty token, nothing otherwise. */
  function SetAuthHeaders(header: Values, token: string): (r: Values)
    ensures token == "" ==> r == header
    ensures token != "" ==> "Authorization" in r && r["Authorization"] == ["GoogleLogin auth=" + token]
    ensures forall k :: k != "Authorization" ==> (k in r <==> k in header) && (k in header ==> r[k] == header[k])
  {
    if token != "" then Set(header, "Authorization", "GoogleLogin auth=" + token) else header
  }

  /**
   * `UnixNano() / 1e3` on an int64: microseconds, rounded toward zero as Go's
   * integer division does, also for instants before the epoch.
   */
  function MicrosFromNanos(nanos: int): (micros: int)
    ensures nanos >= 0 ==> 0 <= nanos - 1000 * micros < 1000
    ensures nanos < 0 ==> -1000 < nanos - 1000 * micros <= 0
  {
    if nanos >= 0 then nanos / 1000 else -((-nanos) / 1000)
  }

  /** The mark-all-as-read request for one feed and one cutoff. */
  function MarkRequest(baseURL: string, token: string, feedID: string, cutoff: int): (req: Request)
    ensures req.verb == "POST" && req.url == baseURL + MarkAllAsReadPath && req.query == map[]
    ensures req.form.Keys == {"s", "ts"} && req.form["s"] == [feedID]
    ensures |req.form["ts"]| == 1 && ParseInt(req.form["ts"][0]) == Some(cutoff)
    ensures "Content-Type" in req.header && req.header["Content-Type"] == [FormContentType]
    ensures req.header.Keys == {"Content-Type"} + (if token != "" then {"Authorization"} else {})
    ensures token != "" ==> req.header["Authorization"] == ["GoogleLogin auth=" + token]
  {
    FormatIntRoundTrip(cutoff);
    var form := Set(Set(map[], "s", feedID), "ts", FormatInt(cutoff));
    var header := SetAuthHeaders(Set(map[], "Content-Type", FormContentType), token);
    Request("POST", baseURL + MarkAllAsReadPath, map[], header, form)
  }

  /** A client. `New` is the way to make one that passed validation. */
  class Client {
    var baseURL: string
    var username: string
    var password: string
    var httpClient: Option<HttpClient>

    /** The values of the fields. */
    function State(): Settings
      reads this
    {
      Settings(baseURL, username, password, httpClient)
    }

    /** `&Client{httpClient: &http.Client{Timeout: 30 * time.Second}}` */
    constructor ()
      ensures State() == Defaults()
    {
      baseURL, username, password := "", "", "";
      httpClient := Some(HttpClient(DefaultTimeout));
    }

    /** Runs one option's closure on this client. */
    method Apply(o: ClientOption)
      modifies this
      ensures State() == ApplyOption(old(State()), o)
    {
      match o
      case WithBaseURL(u) =>
        baseURL := TrimRightSlashes(u);
      case WithCredentials(user, pass) =>
        username := user;
        password := pass;
      case WithHTTPClient(h) =>
        httpClient := h;
      case WithTimeout(d) =>
        if httpClient.None? {
          httpClient := Some(HttpClient(0));
        }
        httpClient := Some(httpClient.value.(timeout := d));
    }

    /** The token request: a GET of the login endpoint with the credentials as query parameters. */
    function AuthRequest(): (req: Request)
      reads this
      ensures req.verb == "GET" && req.url == baseURL + LoginPath
      ensures req.query == map["Email" := [username], "Passwd" := [password]]
      ensures req.header == map[] && req.form == map[]
    {
      var query := Add(Add(map[], "Email", username), "Passwd", password);
      assert [] + [username] == [username] && [] + [password] == [password];
      Request("GET", baseURL + LoginPath, query, map[], map[])
    }

    /**
     * `GetAuthToken`: send the token request and read the token from the reply.
     * Transport, status and read failures are reported before the body is looked
     * at; a 200 reply that was read yields exactly what parsing its body yields.
     */
    function GetAuthToken(server: Request -> Exchange): (r: Result<string, ClientError>)
      reads this
      ensures var x := server(AuthRequest());
        && (x.TransportFailed? ==> r == Failure(ExecuteAuthRequest(x.cause)))
        && (x.Response? && x.status != StatusOK ==> r == Failure(AuthRequestFailed(x.status, x.body)))
        && (x.Response? && x.status == StatusOK && x.readError.Some? ==> r == Failure(ReadAuthBody(x.readError.value)))
        && (x.Response? && x.status == StatusOK && x.readError.None? ==> r == ParseAuthBody(x.body))
    {
      ParseAuthReply(server(AuthRequest()))
    }

    /**
     * `MarkAsRead`: check the token, then the feed ID, before any request;
     * otherwise post the request with the cutoff in microseconds and report
     * the reply's status.
     */
    function MarkAsRead(server: Request -> Exchange, shiftedNanos: int -> int, token: string, feedID: string, days: int)
      : (r: Outcome<ClientError>)
      reads this
      ensures token == "" ==> r == Fail(AuthTokenRequired)
      ensures token != "" && feedID == "" ==> r == Fail(FeedIDRequired)
      ensures token != "" && feedID != "" ==>
        var x := server(MarkRequest(baseURL, token, feedID, MicrosFromNanos(shiftedNanos(days))));
        && (r == Pass <==> x.Response? && x.status == StatusOK)
        && (x.TransportFailed? ==> r == Fail(ExecuteMarkRequest(x.cause)))
        && (x.Response? && x.status != StatusOK ==> r == Fail(MarkRequestFailed(x.status, x.body)))
    {
      if token == "" then Fail(AuthTokenRequired)
      else if feedID == "" then Fail(FeedIDRequired)
      else
        var cutoff := MicrosFromNanos(shiftedNanos(days));
        match server(MarkRequest(baseURL, token, feedID, cutoff))
        case TransportFailed(cause) => Fail(ExecuteMarkRequest(cause))
        case Response(status, body, _) =>
          if status != StatusOK then Fail(MarkRequestFailed(status, body)) else Pass
    }
  }

  /** A missing argument is reported without consulting the server or the clock. */
  lemma MissingArgumentSendsNothing(c: Client, server1: Request -> Exchange, server2: Request -> Exchange,
                                    clock1: int -> int, clock2: int -> int, token: string, feedID: string, days: int)
    requires token == "" || feedID == ""
    ensures c.MarkAsRead(server1, clock1, token, feedID, days) == c.MarkAsRead(server2, clock2, token, feedID, days)
    ensures c.MarkAsRead(server1, clock1, token, feedID, days).Fail?
  {
  }

  /** `New`: apply the options in order to a fresh client, then validate it. */
  method New(opts: seq<ClientOption>, parseRequestURI: string -> Outcome<string>) returns (r: Result<Client, ClientError>)
    ensures r.Success? <==> Configure(opts).Validate(parseRequestURI).Pass?
    ensures r.Success? ==> fresh(r.value) && r.value.State() == Configure(opts)
    ensures r.Failure? ==> r.error == InvalidConfiguration(Configure(opts).Validate(parseRequestURI).error)
  {
    var c := new Client();
    for i := 0 to |opts|
      invariant c.State() == Configure(opts[..i])
    {
      c.Apply(opts[i]);
      assert opts[..i + 1][..i] == opts[..i];
    }
    assert opts[..|opts|] == opts;
    var v := c.State().Validate(parseRequestURI);
    if v.Fail? {
      return Failure(InvalidConfiguration(v.error));
    }
    return Success(c);
  }
}
