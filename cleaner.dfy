/**
 * The cleaner: one auth token, then one mark-as-read call per configured
 * feed, in the configured order, carrying on past failed feeds.
 *
 * The cleaner talks to the FreshRSS API through an interface with two calls.
 * Here that interface is the class `Api`: it records every call made on it
 * in `calls`, and what it answers is data given when it is created, a
 * function of the calls made so far (the one being answered included). Any
 * implementation, the HTTP client or a test double, answers as some such
 * function does, so what is proved about the cleaner holds whatever the
 * answers are.
 */
module Freshrss {
  import opened Wrappers
  import opened Config

  /** A call made through the API interface. */
  datatype ApiCall =
    | GetAuthTokenCall
    | MarkAsReadCall(token: string, feedID: string, days: int)

  /** The API interface, with the trace of the calls made on it. */
  class Api {
    var calls: seq<ApiCall>
    const tokenReply: seq<ApiCall> -> Result<string, string>
    const markReply: seq<ApiCall> -> Outcome<string>

    constructor (tokenReply: seq<ApiCall> -> Result<string, string>, markReply: seq<ApiCall> -> Outcome<string>)
      ensures calls == [] && this.tokenReply == tokenReply && this.markReply == markReply
    {
      calls := [];
      this.tokenReply := tokenReply;
      this.markReply := markReply;
    }

    method GetAuthToken() returns (r: Result<string, string>)
      modifies this
      ensures calls == old(calls) + [GetAuthTokenCall]
      ensures r == tokenReply(calls)
    {
      calls := calls + [GetAuthTokenCall];
      r := tokenReply(calls);
    }

    method MarkAsRead(token: string, feedID: string, days: int) returns (r: Outcome<string>)
      modifies this
      ensures calls == old(calls) + [MarkAsReadCall(token, feedID, days)]
      ensures r == markReply(calls)
    {
      calls := calls + [MarkAsReadCall(token, feedID, days)];
      r := markReply(calls);
    }
  }

  datatype CleanerError =
    | ClientRequired                              // "client is required"
    | ConfigRequired                              // "config is required"
    | InvalidConfiguration(inner: CleanerError)   // "invalid cleaner configuration: %w"
    | AuthTokenFailed(cause: string)              // "failed to get auth token: %w"

  /** The text `Error()` gives for each error. */
  function Message(e: CleanerError): string
  {
    match e
    case ClientRequired => "client is required"
    case ConfigRequired => "config is required"
    case InvalidConfiguration(inner) => "invalid cleaner configuration: " + Message(inner)
    case AuthTokenFailed(cause) => "failed to get auth token: " + cause
  }

  /** A failed token fetch is reported as such, with the cause after it. */
  lemma AuthTokenFailedMessage(cause: string)
    ensures "failed to get auth token" <= Message(AuthTokenFailed(cause))
    ensures Message(AuthTokenFailed(cause))[|"failed to get auth token: "|..] == cause
  {
  }

  /** The options `NewCleaner` accepts. */
  datatype CleanerOption =
    | WithClient(client: Api?)
    | WithConfig(config: Option<RootConfig>)

  /** The calls the cleaner makes for the feeds, once it holds `token`. */
  function Plan(token: string, feeds: seq<FeedConfig>): seq<ApiCall>
  {
    if feeds == [] then [] else [MarkAsReadCall(token, feeds[0].id, feeds[0].days)] + Plan(token, feeds[1..])
  }

  /** One call per feed, the k-th for the k-th feed, with the feed's ID and days. */
  lemma {:induction false} PlanAt(token: string, feeds: seq<FeedConfig>, k: nat)
    requires k < |feeds|
    ensures |Plan(token, feeds)| == |feeds|
    ensures Plan(token, feeds)[k] == MarkAsReadCall(token, feeds[k].id, feeds[k].days)
  {
    PlanLength(token, feeds);
    if k > 0 {
      PlanAt(token, feeds[1..], k - 1);
    }
  }

  lemma {:induction false} PlanLength(token: string, feeds: seq<FeedConfig>)
    ensures |Plan(token, feeds)| == |feeds|
  {
    if feeds != [] {
      PlanLength(token, feeds[1..]);
    }
  }

  /** The plan for one more feed is the plan so far and one more call. */
  lemma {:induction false} PlanSnoc(token: string, feeds: seq<FeedConfig>, f: FeedConfig)
    ensures Plan(token, feeds + [f]) == Plan(token, feeds) + [MarkAsReadCall(token, f.id, f.days)]
  {
    if feeds == [] {
      assert feeds + [f] == [f];
    } else {
      assert (feeds + [f])[1..] == feeds[1..] + [f];
      PlanSnoc(token, feeds[1..], f);
    }
  }

  /** No token is fetched while the feeds are processed. */
  lemma PlanFetchesNoToken(token: string, feeds: seq<FeedConfig>)
    ensures GetAuthTokenCall !in Plan(token, feeds)
  {
    if GetAuthTokenCall in Plan(token, feeds) {
      var k :| 0 <= k < |Plan(token, feeds)| && Plan(token, feeds)[k] == GetAuthTokenCall;
      PlanLength(token, feeds);
      PlanAt(token, feeds, k);
    }
  }

  /** The client an option list leaves set: the last `WithClient`'s, or none. */
  function ChosenClient(opts: seq<CleanerOption>): Api?
  {
    if opts == [] then null
    else if opts[|opts| - 1].WithClient? then opts[|opts| - 1].client
    else ChosenClient(opts[..|opts| - 1])
  }

  /** The configuration an option list leaves set: the last `WithConfig`'s, or none. */
  function ChosenConfig(opts: seq<CleanerOption>): Option<RootConfig>
  {
    if opts == [] then None
    else if opts[|opts| - 1].WithConfig? then opts[|opts| - 1].config
    else ChosenConfig(opts[..|opts| - 1])
  }

  /** The orchestrator. `NewCleaner` is the way to make one that passed validation. */
  class Cleaner {
    var client: Api?
    var config: Option<RootConfig>

    /** `&Cleaner{}` */
    constructor ()
      ensures client == null && config == None
    {
      client := null;
      config := None;
    }

    /** `Validate`: the client is checked before the configuration. */
    function Validate(): (r: Outcome<CleanerError>)
      reads this
      ensures r.Pass? <==> client != null && config.Some?
      ensures r == Fail(ClientRequired) <==> client == null
      ensures r == Fail(ConfigRequired) <==> client != null && config.None?
    {
      if client == null then Fail(ClientRequired)
      else if config.None? then Fail(ConfigRequired)
      else Pass
    }

    /** Runs one option's closure on this cleaner. */
    method Apply(o: CleanerOption)
      modifies this
      ensures o.WithClient? ==> client == o.client && config == old(config)
      ensures o.WithConfig? ==> config == o.config && client == old(client)
    {
      match o
      case WithClient(api) => client := api;
      case WithConfig(cfg) => config := cfg;
    }

    /** `processFeed`: one mark-as-read call for one feed. */
    method ProcessFeed(feed: FeedConfig, token: string) returns (r: Outcome<string>)
      requires client != null
      modifies client
      ensures client.calls == old(client.calls) + [MarkAsReadCall(token, feed.id, feed.days)]
      ensures r == client.markReply(client.calls)
    {
      r := client.MarkAsRead(token, feed.id, feed.days);
    }

    /**
     * `CleanOldEntries`: fetch one token; if that fails, stop with the error.
     * Otherwise make one mark-as-read call per feed, in order, whatever each
     * answers, and succeed.
     */
    method CleanOldEntries() returns (r: Outcome<CleanerError>)
      requires client != null && config.Some?
      modifies client
      ensures var token := client.tokenReply(old(client.calls) + [GetAuthTokenCall]);
        if token.Failure? then
          && client.calls == old(client.calls) + [GetAuthTokenCall]
          && r == Fail(AuthTokenFailed(token.error))
        else
          && client.calls == old(client.calls) + [GetAuthTokenCall] + Plan(token.value, config.value.feeds)
          && r == Pass
    {
      var token := client.GetAuthToken();
      if token.Failure? {
        return Fail(AuthTokenFailed(token.error));
      }
      var feeds := config.value.feeds;
      ghost var start := client.calls;
      for i := 0 to |feeds|
        invariant client.calls == start + Plan(token.value, feeds[..i])
      {
        var _ := ProcessFeed(feeds[i], token.value);
        PlanSnoc(token.value, feeds[..i], feeds[i]);
        assert feeds[..i + 1] == feeds[..i] + [feeds[i]];
      }
      assert feeds[..|feeds|] == feeds;
      return Pass;
    }
  }

  /** `NewCleaner`: apply the options in order to an empty cleaner, then validate it. */
  method NewCleaner(opts: seq<CleanerOption>) returns (r: Result<Cleaner, CleanerError>)
    ensures r.Success? <==> ChosenClient(opts) != null && ChosenConfig(opts).Some?
    ensures ChosenClient(opts) == null ==> r == Failure(InvalidConfiguration(ClientRequired))
    ensures ChosenClient(opts) != null && ChosenConfig(opts).None? ==> r == Failure(InvalidConfiguration(ConfigRequired))
    ensures r.Success? ==>
      fresh(r.value) && r.value.client == ChosenClient(opts) && r.value.config == ChosenConfig(opts)
  {
    var c := new Cleaner();
    for i := 0 to |opts|
      invariant c.client == ChosenClient(opts[..i]) && c.config == ChosenConfig(opts[..i])
    {
      c.Apply(opts[i]);
      assert opts[..i + 1][..i] == opts[..i];
    }
    assert opts[..|opts|] == opts;
    var v := c.Validate();
    if v.Fail? {
      return Failure(InvalidConfiguration(v.error));
    }
    return Success(c);
  }

  /** Two feeds, a token, and every call succeeds: both feeds, feed1 first. */
  method ScenarioAllSucceed()
  {
    var api := new Api(_ => Success("tok"), _ => Pass);
    var cfg := RootConfig("https://example.com", "user", "pass", [FeedConfig("feed1", 7), FeedConfig("feed2", 14)]);
    var made := NewCleaner([WithClient(api), WithConfig(Some(cfg))]);
    assert [WithClient(api), WithConfig(Some(cfg))][..1] == [WithClient(api)];
    var cleaner := made.value;
    var r := cleaner.CleanOldEntries();
    assert r == Pass;
    assert api.calls == [GetAuthTokenCall, MarkAsReadCall("tok", "feed1", 7), MarkAsReadCall("tok", "feed2", 14)];
  }

  /** The token fetch fails: the run fails and no feed is touched. */
  method ScenarioTokenRejected()
  {
    var api := new Api(_ => Failure("request failed with status code 401"), _ => Pass);
    var cfg := RootConfig("https://example.com", "user", "pass", [FeedConfig("feed1", 7), FeedConfig("feed2", 14)]);
    var made := NewCleaner([WithClient(api), WithConfig(Some(cfg))]);
    assert [WithClient(api), WithConfig(Some(cfg))][..1] == [WithClient(api)];
    var cleaner := made.value;
    var r := cleaner.CleanOldEntries();
    assert r.Fail?;
    assert api.calls == [GetAuthTokenCall];
  }

  /** The first feed fails: the second is still attempted and the run succeeds. */
  method ScenarioFirstFeedFails()
  {
    var api := new Api(_ => Success("tok"),
                       calls => if |calls| == 2 then Fail("status code 500") else Pass);
    var cfg := RootConfig("https://example.com", "user", "pass", [FeedConfig("feed1", 7), FeedConfig("feed2", 14)]);
    var made := NewCleaner([WithClient(api), WithConfig(Some(cfg))]);
    assert [WithClient(api), WithConfig(Some(cfg))][..1] == [WithClient(api)];
    var cleaner := made.value;
    var r := cleaner.CleanOldEntries();
    assert r == Pass;
    assert api.calls == [GetAuthTokenCall, MarkAsReadCall("tok", "feed1", 7), MarkAsReadCall("tok", "feed2", 14)];
  }
}
