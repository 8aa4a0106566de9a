/** `AbstractBLOBboxActivity`: the base of the activities that hand a link to the box. It
    recognises YouTube watch links and rewrites them for the box's YouTube application,
    and reports the outcome of a session to its handler as one status code. */
module Activity {
  import opened Wrappers
  import opened JavaStrings
  import opened Exceptions
  import opened Argo

  /* --------------------------------------------------------- YouTube links */

  const YOUTUBE_PLAY_URL := "http://tvportal.tvblob.com/apps/youtube/app.php?vid="
  const YOUTUBE_DOMAIN := ".youtube.com"
  const VIDEO_PARAMETER := "v"
  const QUERY_DELIMS: set<char> := {'&', '='}

  /** `extractQuery(url)`: what follows the last '?', or `None` when there is none. */
  function ExtractQuery(url: string): (q: Option<string>)
    ensures q.None? <==> '?' !in url
    ensures q.Some? ==> |q.value| < |url| && url == url[..|url| - |q.value| - 1] + ['?'] + q.value && '?' !in q.value
  {
    var index := LastIndexOf(url, '?');
    if index < 0 || index == |url| then None
    else
      assert url == url[..index] + ['?'] + url[index + 1..];
      Some(url[index + 1..])
  }

  /** The value of the first pair whose name is "v", reading the tokens two by two as
      (name, value); a name without a value reads "". */
  function VideoIDIn(toks: seq<string>): Option<string>
    decreases |toks|
  {
    if toks == [] then None
    else
      var value := if |toks| > 1 then toks[1] else "";
      if toks[0] == VIDEO_PARAMETER then Some(value)
      else VideoIDIn(if |toks| > 1 then toks[2..] else [])
  }

  /** `findVideoIDInQuery(query)`: a `StringTokenizer` over "&=", read in pairs. */
  method FindVideoIDInQuery(query: string) returns (id: Option<string>)
    ensures id == VideoIDIn(Tokens(query, QUERY_DELIMS))
  {
    var toks := Tokens(query, QUERY_DELIMS);
    var i := 0;
    while i < |toks|
      invariant 0 <= i <= |toks|
      invariant VideoIDIn(toks[i..]) == VideoIDIn(toks)
      decreases |toks| - i
    {
      var rest := toks[i..];
      var name := toks[i];
      i := i + 1;
      var value := "";
      if i < |toks| {
        value := toks[i];
        i := i + 1;
        assert rest[2..] == toks[i..];
      } else {
        assert toks[i..] == [];
      }
      if name == VIDEO_PARAMETER {
        return Some(value);
      }
    }
    return None;
  }

  /** The first "v" in a name position, that is at an even index, gives the video id:
      the token after it, or "" when it is the last token. */
  lemma {:induction false} VideoIDFound(toks: seq<string>, k: nat)
    requires k < |toks| && k % 2 == 0 && toks[k] == VIDEO_PARAMETER
    requires forall j :: 0 <= j < k && j % 2 == 0 ==> toks[j] != VIDEO_PARAMETER
    ensures VideoIDIn(toks) == Some(if k + 1 < |toks| then toks[k + 1] else "")
    decreases k
  {
    if k > 0 {
      assert toks[0] != VIDEO_PARAMETER;
      var rest := toks[2..];
      forall j | 0 <= j < k - 2 && j % 2 == 0
        ensures rest[j] != VIDEO_PARAMETER
      {
        assert rest[j] == toks[j + 2];
      }
      VideoIDFound(rest, k - 2);
      assert rest[k - 2] == toks[k];
      if k + 1 < |toks| {
        assert rest[k - 1] == toks[k + 1];
      }
    }
  }

  /** There is no video id exactly when no name position holds "v"; a "v" in a value
      position does not count. */
  lemma {:induction false} VideoIDAbsent(toks: seq<string>)
    ensures VideoIDIn(toks).None? <==> forall j :: 0 <= j < |toks| && j % 2 == 0 ==> toks[j] != VIDEO_PARAMETER
    decreases |toks|
  {
    if toks != [] && toks[0] != VIDEO_PARAMETER && |toks| > 1 {
      var rest := toks[2..];
      VideoIDAbsent(rest);
      assert forall j :: 0 <= j < |rest| ==> rest[j] == toks[j + 2];
      if forall j :: 0 <= j < |rest| && j % 2 == 0 ==> rest[j] != VIDEO_PARAMETER {
        forall j | 0 <= j < |toks| && j % 2 == 0
          ensures toks[j] != VIDEO_PARAMETER
        {
          if j >= 2 {
            assert toks[j] == rest[j - 2];
          }
        }
      } else {
        var j :| 0 <= j < |rest| && j % 2 == 0 && rest[j] == VIDEO_PARAMETER;
        assert toks[j + 2] == VIDEO_PARAMETER;
      }
    }
  }

  /** Names and values are paired by position, not by '=': in "a=v&v=x" the first "v" is
      the value of "a", and the video id is "x". */
  lemma PairingIsPositional()
    ensures VideoIDIn(Tokens("a=v&v=x", QUERY_DELIMS)) == Some("x")
  {
    assert "a=v&v=x" == Joined(["a", "v", "v", "x"], "=&=");
    TokensOfJoined(["a", "v", "v", "x"], "=&=", QUERY_DELIMS);
    assert ["a", "v", "v", "x"][2..] == ["v", "x"];
  }

  /** `isYouTubeHost(url)`, on the host that `new URL(url).getHost()` gives. */
  predicate IsYouTubeHost(host: string) {
    EndsWith(host, YOUTUBE_DOMAIN)
  }

  /** `getYouTubeVideoID(url)`. `urlHost` is `new URL(url).getHost()`, `None` when the URL
      is malformed; every exception becomes `None`. */
  function YouTubeVideoID(url: string, urlHost: string -> Option<string>): (id: Option<string>)
    ensures id.Some? ==> urlHost(url).Some? && IsYouTubeHost(urlHost(url).value) && '?' in url
  {
    match urlHost(url)
    case None => None
    case Some(host) =>
      if !IsYouTubeHost(host) then None
      else match ExtractQuery(url)
        case None => None
        case Some(query) => VideoIDIn(Tokens(query, QUERY_DELIMS))
  }

  /** `getYouTubeVideoID` on a YouTube link: the id is read from the part after the last
      '?'. */
  lemma YouTubeVideoIDOfQuery(url: string, urlHost: string -> Option<string>, prefix: string, query: string)
    requires url == prefix + ['?'] + query && '?' !in query
    requires urlHost(url).Some? && IsYouTubeHost(urlHost(url).value)
    ensures YouTubeVideoID(url, urlHost) == VideoIDIn(Tokens(query, QUERY_DELIMS))
  {
    var index := LastIndexOf(url, '?');
    assert url[|prefix|] == '?';
    assert url[index + 1..] == query;
  }

  lemma {:induction false} CharNotInJoined(c: char, ts: seq<string>, seps: seq<char>)
    requires |ts| > 0 && |seps| == |ts| - 1
    requires forall i :: 0 <= i < |ts| ==> c !in ts[i]
    requires c !in seps
    ensures c !in Joined(ts, seps)
    decreases |ts|
  {
    if |ts| > 1 {
      CharNotInJoined(c, ts[1..], seps[1..]);
    }
  }

  const WATCH_PAGE := "http://www.youtube.com/watch"
  const WATCH_QUERY_TOKENS := ["v", "25AuClGJB0M", "feature", "topvideos_music"]
  const WATCH_QUERY := Joined(WATCH_QUERY_TOKENS, "=&=")

  lemma WatchQuery()
    ensures '?' !in WATCH_QUERY && Tokens(WATCH_QUERY, QUERY_DELIMS) == WATCH_QUERY_TOKENS
  {
    assert forall i :: 0 <= i < |WATCH_QUERY_TOKENS| ==> IsToken(WATCH_QUERY_TOKENS[i], QUERY_DELIMS);
    assert forall i :: 0 <= i < |WATCH_QUERY_TOKENS| ==> '?' !in WATCH_QUERY_TOKENS[i];
    CharNotInJoined('?', WATCH_QUERY_TOKENS, "=&=");
    TokensOfJoined(WATCH_QUERY_TOKENS, "=&=", QUERY_DELIMS);
  }

  /** The documented example: http://www.youtube.com/watch?v=25AuClGJB0M&feature=topvideos_music
      plays as app.php?vid=25AuClGJB0M. */
  lemma YouTubeExample(urlHost: string -> Option<string>)
    requires urlHost(WATCH_PAGE + "?" + WATCH_QUERY) == Some("www.youtube.com")
    ensures YouTubeURL(WATCH_PAGE + "?" + WATCH_QUERY, urlHost) == Some(YOUTUBE_PLAY_URL + "25AuClGJB0M")
  {
    assert "www.youtube.com"[3..] == YOUTUBE_DOMAIN;
    WatchQuery();
    YouTubeVideoIDOfQuery(WATCH_PAGE + "?" + WATCH_QUERY, urlHost, WATCH_PAGE, WATCH_QUERY);
  }

  /** `getYouTubeURL(url)`: the box's YouTube player for the video, or `None` when `url`
      is not a YouTube watch link. */
  function YouTubeURL(url: string, urlHost: string -> Option<string>): (r: Option<string>)
    ensures r.None? <==> YouTubeVideoID(url, urlHost).None?
    ensures r.Some? ==> StartsWith(r.value, YOUTUBE_PLAY_URL) &&
                        r.value[|YOUTUBE_PLAY_URL|..] == YouTubeVideoID(url, urlHost).value
  {
    match YouTubeVideoID(url, urlHost)
    case None => None
    case Some(id) =>
      assert (YOUTUBE_PLAY_URL + id)[..|YOUTUBE_PLAY_URL|] == YOUTUBE_PLAY_URL;
      Some(YOUTUBE_PLAY_URL + id)
  }

  /** `getNonNullURL(intent)`, on what `getURL(intent)` returned. */
  function NonNullURL(url: Option<string>): (r: Result<string, Exception>)
    ensures r.Failure? <==> url.None?
    ensures r.Failure? ==> r.error == ArgoUnsupportedIntent
    ensures r.Success? ==> r.value == url.value
  {
    if url.None? then Failure(ArgoUnsupportedIntent) else Success(url.value)
  }

  /* ---------------------------------------------------------- status codes */

  const OPERATION_OK := 0
  const OPERATION_FAILED := 1
  const UNSUPPORTED_INTENT := 2
  const UNSUPPORTED_VERSION := 3
  const AUTHENTICATION_FAILED := 4
  const INCOMPATIBLE_DEVICE := 5
  const COMMUNICATIONS_FAILED := 6
  const NO_DEVICE_FOUND := 7

  /** The `catch` clauses of `setupClientAndPerformOperation`: the status code for how the
      session and the operation ended. */
  function StatusCode(o: Outcome<Exception>): (code: int)
    ensures code == OPERATION_OK <==> o.Pass?
    ensures code == INCOMPATIBLE_DEVICE <==> o.Fail? && o.error.IncompatibleRemoteDevice?
    ensures code == UNSUPPORTED_VERSION <==> o.Fail? && o.error.IncompatibleSoftwareVersion?
    ensures code == COMMUNICATIONS_FAILED <==> o.Fail? && o.error.ArgoCommunication?
    ensures code == AUTHENTICATION_FAILED <==> o.Fail? && o.error.ArgoAuthentication?
    ensures code == UNSUPPORTED_INTENT <==> o.Fail? && o.error.ArgoUnsupportedIntent?
    ensures code == OPERATION_FAILED <==>
              o.Fail? && !o.error.IncompatibleRemoteDevice? && !o.error.IncompatibleSoftwareVersion? &&
              !o.error.ArgoCommunication? && !o.error.ArgoAuthentication? && !o.error.ArgoUnsupportedIntent?
    ensures OPERATION_OK <= code <= COMMUNICATIONS_FAILED
  {
    match o
    case Pass => OPERATION_OK
    case Fail(e) =>
      if e.IncompatibleRemoteDevice? then INCOMPATIBLE_DEVICE
      else if e.IncompatibleSoftwareVersion? then UNSUPPORTED_VERSION
      else if e.ArgoCommunication? then COMMUNICATIONS_FAILED
      else if e.ArgoAuthentication? then AUTHENTICATION_FAILED
      else if e.ArgoUnsupportedIntent? then UNSUPPORTED_INTENT
      else OPERATION_FAILED
  }

  /** The session's outcome followed by the operation's: the operation runs only on an
      open session. */
  function SetupOutcome(session: Outcome<Exception>, operation: Outcome<Exception>): Outcome<Exception> {
    if session.Fail? then session else operation
  }

  class BLOBboxActivity {
    /** The status codes handed to the handler, oldest first. */
    var sent: seq<int>

    constructor ()
      ensures sent == []
    {
      sent := [];
    }

    /** `setupClientAndPerformOperation(intent)`: open a session with the box at `ip` (the
        scripted replies stand for the box), run the operation (its outcome is a
        parameter) and send exactly one status code. */
    method SetupClientAndPerformOperation(ip: string, user: string, password: string, crypto: Crypto,
                                          posts: seq<PostReply>, calls: seq<CallReply>,
                                          operation: Outcome<Exception>)
      modifies this
      ensures sent == old(sent) +
                [StatusCode(SetupOutcome(Construct(ip, user, password, crypto, Box(posts, calls, [])).outcome, operation))]
    {
      var client, transport := ArgoClient.Open(ip, user, password, crypto, posts, calls);
      var outcome: Outcome<Exception>;
      if client.Failure? {
        outcome := Fail(client.error);
      } else {
        outcome := operation;
      }
      sent := sent + [StatusCode(outcome)];
    }
  }

  /** What the handler hears about a session: OK only when validation, login and the
      operation all succeeded; a box that is not a BLOBbox, an old version, a failed
      connection and a failed login each have their own code; never `NO_DEVICE_FOUND`. */
  lemma SetupReportsSession(ip: string, user: string, password: string, crypto: Crypto,
                            b: Box, operation: Outcome<Exception>)
    ensures var v := Validate(ip, b);
            var code := StatusCode(SetupOutcome(Construct(ip, user, password, crypto, b).outcome, operation));
            (code == OPERATION_OK <==>
               v.outcome.Pass? && Login(ip, user, password, crypto, v.box).outcome.Pass? && operation.Pass?) &&
            (v.outcome == Fail(IncompatibleRemoteDevice(ip)) ==> code == INCOMPATIBLE_DEVICE) &&
            (v.outcome == Fail(ArgoCommunication(ip)) ==> code == COMMUNICATIONS_FAILED) &&
            (v.outcome.Fail? && v.outcome.error.IncompatibleSoftwareVersion? ==> code == UNSUPPORTED_VERSION) &&
            (v.outcome.Pass? && Login(ip, user, password, crypto, v.box).outcome == Fail(JsonRpc) ==>
               code == AUTHENTICATION_FAILED) &&
            code != NO_DEVICE_FOUND
  {
    ConstructFailures(ip, user, password, crypto, b);
  }
}
