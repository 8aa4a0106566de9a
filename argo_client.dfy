/** `ArgoClient`: opening a JSON-RPC session with a BLOBbox. The box is primed with an HTTP
    POST, its software version is checked, and the client logs in by answering a SHA-1
    challenge. The JSON-RPC transport is a class whose replies are scripted: the replies
    the box will give, in order, to POST requests and to remote calls. */
module Argo {
  import opened Wrappers
  import opened JavaInt
  import opened JavaStrings
  import opened StringUtilities
  import opened Exceptions
  import VersionExamples

  /* ------------------------------------------------------------ the transport */

  /** The reply to one POST: an HTTP status, a transport failure (`JSONRPCException`
      wrapping an `IOException`), or a URL the HTTP library refuses
      (`IllegalArgumentException` from `new HttpPost`). */
  datatype PostReply = Status(code: int) | PostFailed | PostRejected

  /** The reply to one remote call: its result (`None` for a Java `null` result), or a failure. */
  datatype CallReply = Returned(result: Option<string>) | CallFailed

  /** What the client asks of the box, in order. */
  datatype Request = Post(url: string) | Call(name: string, params: seq<string>)

  /** The conversation with the box as a value: the replies still to come, to POST
      requests and to remote calls, and every request attempted so far, oldest first. A POST
      whose URL `new HttpPost` refuses is logged too, although nothing reaches the box. */
  datatype Box = Box(posts: seq<PostReply>, calls: seq<CallReply>, requests: seq<Request>)

  /** The scripted replies with the first one used. */
  function Rest<T>(replies: seq<T>): (rest: seq<T>)
    ensures replies == [] ==> rest == []
    ensures replies != [] ==> rest == replies[1..]
  {
    if replies == [] then [] else replies[1..]
  }

  /** What `performPost` makes of the next POST reply; when the box has nothing more to
      say the connection fails. */
  function PostOutcome(posts: seq<PostReply>): (r: Result<int, Exception>)
    ensures r.Success? <==> posts != [] && posts[0].Status?
    ensures r.Success? ==> r.value == posts[0].code
    ensures r.Failure? ==> r.error == JsonRpc || r.error == IllegalArgument
  {
    if posts == [] then Failure(JsonRpc)
    else match posts[0]
      case Status(code) => Success(code)
      case PostFailed => Failure(JsonRpc)
      case PostRejected => Failure(IllegalArgument)
  }

  /** What `call`/`callString` make of the next call reply. */
  function CallOutcome(calls: seq<CallReply>): (r: Result<Option<string>, Exception>)
    ensures r.Success? <==> calls != [] && calls[0].Returned?
    ensures r.Success? ==> r.value == calls[0].result
    ensures r.Failure? ==> r.error == JsonRpc
  {
    if calls == [] || calls[0].CallFailed? then Failure(JsonRpc) else Success(calls[0].result)
  }

  /** One POST: its status or exception, and the conversation after it. */
  function PostStep(b: Box, url: string): (Result<int, Exception>, Box) {
    (PostOutcome(b.posts), Box(Rest(b.posts), b.calls, b.requests + [Post(url)]))
  }

  /** One remote call: its result or exception, and the conversation after it. */
  function CallStep(b: Box, name: string, params: seq<string>): (Result<Option<string>, Exception>, Box) {
    (CallOutcome(b.calls), Box(b.posts, Rest(b.calls), b.requests + [Request.Call(name, params)]))
  }

  /** `JabsorbRPCClient`, a `JSONRPCHttpClient` for one URI, seen through the requests it
      attempts and the replies it gets. `call` and `callString` are one operation here, since
      every result the application reads is a string. */
  class JabsorbRPCClient {
    const uri: string
    var connectionTimeout: int
    var soTimeout: int
    var posts: seq<PostReply>
    var calls: seq<CallReply>
    var requests: seq<Request>

    function State(): Box
      reads this
    {
      Box(posts, calls, requests)
    }

    /** A client for `uri`, talking to a box that will give the scripted replies; the
        timeouts are the library's defaults, written 0. */
    constructor (uri: string, posts: seq<PostReply>, calls: seq<CallReply>)
      ensures this.uri == uri && connectionTimeout == 0 && soTimeout == 0
      ensures State() == Box(posts, calls, [])
    {
      this.uri := uri;
      connectionTimeout := 0;
      soTimeout := 0;
      this.posts := posts;
      this.calls := calls;
      requests := [];
    }

    method SetConnectionTimeout(ms: int)
      modifies this
      ensures connectionTimeout == ms && soTimeout == old(soTimeout) && State() == old(State())
    {
      connectionTimeout := ms;
    }

    method SetSoTimeout(ms: int)
      modifies this
      ensures soTimeout == ms && connectionTimeout == old(connectionTimeout) && State() == old(State())
    {
      soTimeout := ms;
    }

    /** `performPost(url)`: one POST; its status, or the exception it raises. */
    method PerformPost(url: string) returns (r: Result<int, Exception>)
      modifies this
      ensures (r, State()) == PostStep(old(State()), url)
      ensures connectionTimeout == old(connectionTimeout) && soTimeout == old(soTimeout)
    {
      requests := requests + [Post(url)];
      r := PostOutcome(posts);
      posts := Rest(posts);
    }

    /** `call(name, params)` / `callString(name, params)`: one remote call. */
    method Call(name: string, params: seq<string>) returns (r: Result<Option<string>, Exception>)
      modifies this
      ensures (r, State()) == CallStep(old(State()), name, params)
      ensures connectionTimeout == old(connectionTimeout) && soTimeout == old(soTimeout)
    {
      requests := requests + [Request.Call(name, params)];
      r := CallOutcome(calls);
      calls := Rest(calls);
    }
  }

  /* ------------------------------------------------------------- constants */

  const TIMEOUT_MS: int := 10000

  /** `getCompoundVersionNumber("1.66.2")` and `getCompoundVersionNumber("1.64.10")`
      (see `MinimumVersions`). */
  const MIN_VERSION_NUM: Int := 0x0142_0200
  const MIN_PH_VERSION_NUM: Int := 0x0140_0A00
  const PH_MARKER := ".PH."

  const GET_AUTHORIZED_USER_NAME := "authenticationManager.getAuthorizedUserName"
  const GET_LOGIN_CHALLENGE := "authenticationManager.getLoginChallenge"
  const LOGIN := "authenticationManager.login"
  const GET_VERSION_STRING := "version.getVersionString"
  const REMOTE_CONTROL_KEY_PRESSED := "keyinput.remoteControlKeyPressed"

  lemma MinimumVersions()
    ensures CompoundVersion("1.66.2") == Some(MIN_VERSION_NUM)
    ensures CompoundVersion("1.64.10") == Some(MIN_PH_VERSION_NUM)
  {
    VersionExamples.Compound_1_66_2();
    VersionExamples.Compound_1_64_10();
  }

  /* ------------------------------------------------------------------- URLs */

  const ARGO_PATH := "/argo?silent=true"
  const JSON_RPC_PATH := "/jabsorb/JSON-RPC"

  /** `getArgoURL(ip)`: the page that loads the Argo objects into the HTTP session. */
  function ArgoURL(ip: string): (url: string)
    ensures |url| == 7 + |ip| + |ARGO_PATH|
    ensures StartsWith(url, "http://") && EndsWith(url, ARGO_PATH) && url[7..|url| - |ARGO_PATH|] == ip
  {
    "http://" + ip + ARGO_PATH
  }

  /** `getJSONRPCURL(ip)`: the JSON-RPC endpoint. */
  function JSONRPCURL(ip: string): (url: string)
    ensures |url| == 7 + |ip| + |JSON_RPC_PATH|
    ensures StartsWith(url, "http://") && EndsWith(url, JSON_RPC_PATH) && url[7..|url| - |JSON_RPC_PATH|] == ip
  {
    "http://" + ip + JSON_RPC_PATH
  }

  /** Each URL names its box, and the priming page is never the endpoint. */
  lemma URLsIdentifyBox(ip1: string, ip2: string)
    ensures ArgoURL(ip1) == ArgoURL(ip2) <==> ip1 == ip2
    ensures JSONRPCURL(ip1) == JSONRPCURL(ip2) <==> ip1 == ip2
    ensures ArgoURL(ip1) != JSONRPCURL(ip2)
  {
    var a1, a2 := ArgoURL(ip1), ArgoURL(ip2);
    var j1, j2 := JSONRPCURL(ip1), JSONRPCURL(ip2);
    if a1 == a2 {
      assert |ip1| == |ip2|;
      assert ip1 == a1[7..7 + |ip1|] == a2[7..7 + |ip2|] == ip2;
    }
    if j1 == j2 {
      assert |ip1| == |ip2|;
      assert ip1 == j1[7..7 + |ip1|] == j2[7..7 + |ip2|] == ip2;
    }
    assert a1[|a1| - 1] == 'e';
    assert j2[|j2| - 1] == 'C';
  }

  /* --------------------------------------------------------- the version gate */

  /** `isSupportedVersion(version)`, `None` standing for a null version string: release
      1.66.2 or later, or 1.64.10 or later on a ".PH." build. A version string whose
      components overflow makes `getCompoundVersionNumber` throw. */
  function IsSupportedVersion(version: Option<string>): (r: Result<bool, Exception>)
    ensures r.Success? <==> version.Some? && CompoundVersion(version.value).Some?
    ensures version.None? ==> r == Failure(NullPointer)
    ensures version.Some? && r.Failure? ==> r.error == IllegalArgument
  {
    if version.None? then Failure(NullPointer)
    else match CompoundVersion(version.value)
      case None => Failure(IllegalArgument)
      case Some(versionNum) =>
        Success(versionNum >= MIN_VERSION_NUM ||
                (versionNum >= MIN_PH_VERSION_NUM && Contains(version.value, PH_MARKER)))
  }

  /** For a version whose first four components are in the documented range, the gate
      compares them, zero-padded, lexicographically with 1.66.2.0, or with 1.64.10.0 on a
      ".PH." build. */
  lemma SupportedVersionOrder(v: string)
    requires VersionNumbers(v).Some? && InPackRange(FirstFour(VersionNumbers(v).value))
    ensures var cs := Pad4(FirstFour(VersionNumbers(v).value));
            IsSupportedVersion(Some(v)) ==
              Success(LexLe([1, 66, 2, 0], cs) || (LexLe([1, 64, 10, 0], cs) && Contains(v, PH_MARKER)))
  {
    var f := FirstFour(VersionNumbers(v).value);
    CompoundOfVersionNumbers(v, 4);
    assert CompoundVersion(v) == Some(Pack(f, 4));
    VersionExamples.Pack_1_66_2();
    VersionExamples.Pack_1_64_10();
    CompoundOrderIsLexicographic([1, 66, 2], f);
    CompoundOrderIsLexicographic([1, 64, 10], f);
    assert Pad4([1, 66, 2]) == [1, 66, 2, 0];
    assert Pad4([1, 64, 10]) == [1, 64, 10, 0];
  }

  lemma NoPHMarker(v: string)
    requires 'P' !in v
    ensures !Contains(v, PH_MARKER)
  {
    forall i | 0 <= i <= |v| - 4
      ensures !OccursAt(v, PH_MARKER, i)
    {
      assert v[i..i + 4][1] == v[i + 1];
      assert v[i + 1] in v;
    }
  }

  /** The two thresholds: 1.66.2 passes; 1.64.10 passes only as a ".PH." build. */
  lemma MinimumVersionsAreGates()
    ensures IsSupportedVersion(Some("1.66.2")) == Success(true)
    ensures IsSupportedVersion(Some("1.64.10")) == Success(false)
  {
    ReleaseGate();
    PHGate();
  }

  lemma ReleaseGate()
    ensures IsSupportedVersion(Some("1.66.2")) == Success(true)
  {
    VersionExamples.Compound_1_66_2();
  }

  lemma PHGate()
    ensures IsSupportedVersion(Some("1.64.10")) == Success(false)
  {
    VersionExamples.Compound_1_64_10();
    NotPHBuild();
  }

  lemma NotPHBuild()
    ensures !Contains("1.64.10", PH_MARKER)
  {
    NoPHMarker("1.64.10");
  }

  /* ---------------------------------------------------------------- sessions */

  /** The result of one stage of the session code: its outcome and the conversation
      after it. */
  datatype Run = Run(outcome: Outcome<Exception>, box: Box)

  /** The `catch` clauses of `validateClient`: transport and argument failures become a
      communication failure with the box. */
  function ValidationFailure(e: Exception, ip: string): (f: Exception)
    ensures e == JsonRpc || e == IllegalArgument ==> f == ArgoCommunication(ip)
    ensures e != JsonRpc && e != IllegalArgument ==> f == e
  {
    if e == JsonRpc || e == IllegalArgument then ArgoCommunication(ip) else e
  }

  /** What `validateClient` may throw. */
  predicate IsValidationError(e: Exception, ip: string) {
    e == IncompatibleRemoteDevice(ip) || e.IncompatibleSoftwareVersion? ||
    e == ArgoCommunication(ip) || e == NullPointer
  }

  /** `validateClient(ip, client)`: prime the session with a POST to the Argo page, which
      must answer 204 No Content; then ask for the software version and gate on it. */
  function Validate(ip: string, b: Box): (r: Run)
    ensures r.outcome.Fail? ==> IsValidationError(r.outcome.error, ip)
    ensures r.box.requests == b.requests + [Post(ArgoURL(ip))] ||
            r.box.requests == b.requests + [Post(ArgoURL(ip))] + [Request.Call(GET_VERSION_STRING, [])]
    ensures r.box.posts == Rest(b.posts) && (r.box.calls == b.calls || r.box.calls == Rest(b.calls))
  {
    var primed := PostStep(b, ArgoURL(ip));
    match primed.0
    case Failure(e) => Run(Fail(ValidationFailure(e, ip)), primed.1)
    case Success(status) =>
      if status != 204 then Run(Fail(IncompatibleRemoteDevice(ip)), primed.1)
      else
        var asked := CallStep(primed.1, GET_VERSION_STRING, []);
        match asked.0
        case Failure(e) => Run(Fail(ValidationFailure(e, ip)), asked.1)
        case Success(version) =>
          match IsSupportedVersion(version)
          case Failure(e) => Run(Fail(ValidationFailure(e, ip)), asked.1)
          case Success(supported) =>
            Run(if supported then Pass else Fail(IncompatibleSoftwareVersion(version.value)), asked.1)
  }

  /** A priming status other than 204 rejects the device before the version is asked for. */
  lemma ValidateRejectsStatus(ip: string, b: Box)
    requires b.posts != [] && b.posts[0].Status? && b.posts[0].code != 204
    ensures Validate(ip, b) ==
            Run(Fail(IncompatibleRemoteDevice(ip)), Box(b.posts[1..], b.calls, b.requests + [Post(ArgoURL(ip))]))
  {
  }

  /** Validation passes exactly when the box answers the POST with 204 and reports a
      supported version; an unsupported one is reported with its version string. */
  lemma ValidateOutcome(ip: string, b: Box)
    ensures Validate(ip, b).outcome.Pass? <==>
              b.posts != [] && b.posts[0] == Status(204) && b.calls != [] && b.calls[0].Returned? &&
              IsSupportedVersion(b.calls[0].result) == Success(true)
    ensures b.posts != [] && b.posts[0] == Status(204) && b.calls != [] && b.calls[0].Returned? &&
            IsSupportedVersion(b.calls[0].result) == Success(false) ==>
              Validate(ip, b).outcome == Fail(IncompatibleSoftwareVersion(b.calls[0].result.value))
  {
  }

  /** Any failure of the transport, or a URL the HTTP library refuses, during validation
      is reported as a communication failure with the box at `ip`; so is a version string
      whose components overflow. */
  lemma ValidateTransportFailures(ip: string, b: Box)
    ensures b.posts == [] || b.posts[0] == PostFailed || b.posts[0] == PostRejected ==>
              Validate(ip, b).outcome == Fail(ArgoCommunication(ip))
    ensures b.posts != [] && b.posts[0] == Status(204) && (b.calls == [] || b.calls[0] == CallFailed) ==>
              Validate(ip, b).outcome == Fail(ArgoCommunication(ip))
    ensures b.posts != [] && b.posts[0] == Status(204) && b.calls != [] && b.calls[0].Returned? &&
            b.calls[0].result.Some? && CompoundVersion(b.calls[0].result.value).None? ==>
              Validate(ip, b).outcome == Fail(ArgoCommunication(ip))
  {
  }

  /** SHA-1 produces 20 bytes. */
  type Sha1Digest = s: seq<byte> | |s| == 20 witness seq(20, _ => 0)

  /** The platform's cryptography: whether UTF-8 and SHA-1 are available, and SHA-1 of the
      UTF-8 encoding of a string. */
  datatype Crypto = Crypto(utf8: bool, sha1Available: bool, sha1: string -> Sha1Digest)

  /** `BLOBboxEncryptionUtils.getEncryptedMessageDigestAsString(message)`: the message is
      encoded first, so a missing UTF-8 is reported before a missing SHA-1. */
  function Digest(crypto: Crypto, message: string): (r: Result<string, Exception>)
    ensures !crypto.utf8 ==> r == Failure(UnsupportedEncoding)
    ensures crypto.utf8 && !crypto.sha1Available ==> r == Failure(NoSuchAlgorithm)
    ensures crypto.utf8 && crypto.sha1Available ==> r.Success?
  {
    if !crypto.utf8 then Failure(UnsupportedEncoding)
    else if !crypto.sha1Available then Failure(NoSuchAlgorithm)
    else Success(Hex(crypto.sha1(message)))
  }

  /** The digest sent to the box is 40 lower-case hex digits from which
      `hexStringToBytes` recovers the SHA-1 of the message. */
  lemma DigestIsHexOfSHA1(crypto: Crypto, message: string)
    requires Digest(crypto, message).Success?
    ensures var d := Digest(crypto, message).value;
            |d| == 40 && (forall i :: 0 <= i < 40 ==> IsHexDigit(d[i])) && Unhex(d) == crypto.sha1(message)
  {
    HexIsValid(crypto.sha1(message));
    HexRoundTrip(crypto.sha1(message));
  }

  /** Java's `challenge + ':' + user + ':' + password`: a null challenge reads "null". */
  function DigestInput(challenge: Option<string>, user: string, password: string): (s: string)
    ensures StartsWith(s, if challenge.None? then "null:" else challenge.value + ":")
    ensures EndsWith(s, ":" + user + ":" + password)
  {
    (if challenge.None? then "null" else challenge.value) + ":" + user + ":" + password
  }

  /** The exceptions `login` lets through. */
  predicate IsLoginError(e: Exception) {
    e == JsonRpc || e == IllegalArgument || e == NullPointer || e == NoSuchAlgorithm || e == UnsupportedEncoding
  }

  /** The branch of `login` taken when nobody is logged in: fetch the challenge, answer it,
      prime the session again (the method list has changed), and ask who is logged in now.
      The results of the answer and of that last question are not looked at; the challenge
      is read once more (for the log) after the priming POST. */
  function Authenticate(ip: string, user: string, password: string, crypto: Crypto, b: Box): (r: Run)
    ensures |b.requests| < |r.box.requests| <= |b.requests| + 4
    ensures r.box.requests[..|b.requests| + 1] == b.requests + [Request.Call(GET_LOGIN_CHALLENGE, [user])]
    ensures r.outcome.Fail? ==> IsLoginError(r.outcome.error)
  {
    var asked := CallStep(b, GET_LOGIN_CHALLENGE, [user]);
    match asked.0
    case Failure(e) => Run(Fail(e), asked.1)
    case Success(challenge) =>
      match Digest(crypto, DigestInput(challenge, user, password))
      case Failure(e) => Run(Fail(e), asked.1)
      case Success(digest) =>
        var answered := CallStep(asked.1, LOGIN, [digest]);
        match answered.0
        case Failure(e) => Run(Fail(e), answered.1)
        case Success(_) =>
          var primed := PostStep(answered.1, ArgoURL(ip));
          match primed.0
          case Failure(e) => Run(Fail(e), primed.1)
          case Success(_) =>
            if challenge.None? then Run(Fail(NullPointer), primed.1)
            else
              var checked := CallStep(primed.1, GET_AUTHORIZED_USER_NAME, []);
              match checked.0
              case Failure(e) => Run(Fail(e), checked.1)
              case Success(_) => Run(Pass, checked.1)
  }

  /** `login(client, user, password, ip)`: log in unless the box reports a user already
      logged in (a null name, or the text "null", means nobody is). */
  function Login(ip: string, user: string, password: string, crypto: Crypto, b: Box): (r: Run)
    ensures |b.requests| < |r.box.requests| <= |b.requests| + 5
    ensures r.box.requests[..|b.requests| + 1] == b.requests + [Request.Call(GET_AUTHORIZED_USER_NAME, [])]
    ensures r.outcome.Fail? ==> IsLoginError(r.outcome.error)
  {
    var asked := CallStep(b, GET_AUTHORIZED_USER_NAME, []);
    match asked.0
    case Failure(e) => Run(Fail(e), asked.1)
    case Success(name) =>
      if name.Some? && name.value != "null" then Run(Pass, asked.1)
      else
        var a := Authenticate(ip, user, password, crypto, asked.1);
        assert a.box.requests[..|b.requests| + 1] == b.requests + [Request.Call(GET_AUTHORIZED_USER_NAME, [])] by {
          assert a.box.requests[..|b.requests| + 1] == a.box.requests[..|asked.1.requests| + 1][..|b.requests| + 1];
        }
        a
  }

  /** A box with a user logged in is left alone after the first question. */
  lemma LoginWhenLoggedIn(ip: string, user: string, password: string, crypto: Crypto, b: Box)
    requires b.calls != [] && b.calls[0].Returned? && b.calls[0].result.Some? && b.calls[0].result.value != "null"
    ensures Login(ip, user, password, crypto, b) ==
            Run(Pass, Box(b.posts, b.calls[1..], b.requests + [Request.Call(GET_AUTHORIZED_USER_NAME, [])]))
  {
  }

  /** With nobody logged in and every request answered, the requests are exactly: who is
      logged in, the challenge for `user`, the hex SHA-1 of "challenge:user:password", the
      priming POST, and who is logged in again. Whatever the answer and the final question
      return, the login succeeds. */
  lemma LoginSequence(ip: string, user: string, password: string, crypto: Crypto, b: Box, challenge: string)
    requires |b.calls| >= 4 && b.posts != [] && b.posts[0].Status?
    requires b.calls[0] == Returned(None) || b.calls[0] == Returned(Some("null"))
    requires b.calls[1] == Returned(Some(challenge)) && b.calls[2].Returned? && b.calls[3].Returned?
    requires crypto.utf8 && crypto.sha1Available
    ensures Login(ip, user, password, crypto, b) ==
            Run(Pass, Box(b.posts[1..], b.calls[4..],
                          b.requests + [Request.Call(GET_AUTHORIZED_USER_NAME, []),
                                        Request.Call(GET_LOGIN_CHALLENGE, [user]),
                                        Request.Call(LOGIN, [Hex(crypto.sha1(challenge + ":" + user + ":" + password))]),
                                        Post(ArgoURL(ip)),
                                        Request.Call(GET_AUTHORIZED_USER_NAME, [])]))
  {
    var rs := b.requests;
    var q1, q2 := Request.Call(GET_AUTHORIZED_USER_NAME, []), Request.Call(GET_LOGIN_CHALLENGE, [user]);
    var q3 := Request.Call(LOGIN, [Hex(crypto.sha1(challenge + ":" + user + ":" + password))]);
    var q4 := Post(ArgoURL(ip));
    assert rs + [q1] + [q2] + [q3] + [q4] + [q1] == rs + [q1, q2, q3, q4, q1];
    assert b.calls[1..][1..][1..][1..] == b.calls[4..];
  }

  /** A null challenge is answered with the digest of "null:user:password"; the login then
      fails with a `NullPointerException` after the priming POST. */
  lemma LoginNullChallenge(ip: string, user: string, password: string, crypto: Crypto, b: Box)
    requires |b.calls| >= 3 && b.posts != [] && b.posts[0].Status?
    requires b.calls[0] == Returned(None) && b.calls[1] == Returned(None) && b.calls[2].Returned?
    requires crypto.utf8 && crypto.sha1Available
    ensures Login(ip, user, password, crypto, b) ==
            Run(Fail(NullPointer), Box(b.posts[1..], b.calls[3..],
                          b.requests + [Request.Call(GET_AUTHORIZED_USER_NAME, []),
                                        Request.Call(GET_LOGIN_CHALLENGE, [user]),
                                        Request.Call(LOGIN, [Hex(crypto.sha1("null:" + user + ":" + password))]),
                                        Post(ArgoURL(ip))]))
  {
    var rs := b.requests;
    var q1, q2 := Request.Call(GET_AUTHORIZED_USER_NAME, []), Request.Call(GET_LOGIN_CHALLENGE, [user]);
    assert "null" + ":" + user + ":" + password == "null:" + user + ":" + password;
    var q3 := Request.Call(LOGIN, [Hex(crypto.sha1("null:" + user + ":" + password))]);
    var q4 := Post(ArgoURL(ip));
    assert rs + [q1] + [q2] + [q3] + [q4] == rs + [q1, q2, q3, q4];
    assert b.calls[1..][1..][1..] == b.calls[3..];
  }

  /** The `catch` clauses of the constructor around `login`. */
  function LoginFailure(e: Exception, ip: string): (f: Exception)
    ensures e == NoSuchAlgorithm || e == UnsupportedEncoding ==> f == IllegalState
    ensures e == JsonRpc ==> f == ArgoAuthentication(ip)
    ensures e != NoSuchAlgorithm && e != UnsupportedEncoding && e != JsonRpc ==> f == e
  {
    if e == NoSuchAlgorithm || e == UnsupportedEncoding then IllegalState
    else if e == JsonRpc then ArgoAuthentication(ip)
    else e
  }

  /** `new ArgoClient(ip, user, password)`: validate, and only then log in. */
  function Construct(ip: string, user: string, password: string, crypto: Crypto, b: Box): Run {
    var v := Validate(ip, b);
    if v.outcome.Fail? then v
    else
      var l := Login(ip, user, password, crypto, v.box);
      Run(if l.outcome.Pass? then Pass else Fail(LoginFailure(l.outcome.error, ip)), l.box)
  }

  /** A call on the authentication manager. */
  predicate IsAuthenticationCall(r: Request) {
    r.Call? && StartsWith(r.name, "authenticationManager.")
  }

  /** Validation never talks to the authentication manager. */
  lemma ValidateMakesNoLoginCall(ip: string, b: Box)
    ensures forall k :: |b.requests| <= k < |Validate(ip, b).box.requests| ==>
              !IsAuthenticationCall(Validate(ip, b).box.requests[k])
  {
    assert GET_VERSION_STRING[0] == 'v';
  }

  /** `login` opens with a question to the authentication manager. */
  lemma LoginAsksFirst(ip: string, user: string, password: string, crypto: Crypto, b: Box)
    ensures var l := Login(ip, user, password, crypto, b);
            var n := |b.requests|;
            n < |l.box.requests| && l.box.requests[..n] == b.requests && IsAuthenticationCall(l.box.requests[n])
  {
    var l := Login(ip, user, password, crypto, b);
    var n := |b.requests|;
    assert l.box.requests[..n] == l.box.requests[..n + 1][..n];
    assert l.box.requests[n] == l.box.requests[..n + 1][n];
    assert GET_AUTHORIZED_USER_NAME[..22] == "authenticationManager.";
  }

  /** The constructor sends the validation requests first; anything after them belongs to
      `login`, which starts only once validation has passed, with a question to the
      authentication manager. */
  lemma ConstructValidatesFirst(ip: string, user: string, password: string, crypto: Crypto, b: Box)
    ensures var v := Validate(ip, b);
            var s := Construct(ip, user, password, crypto, b);
            |v.box.requests| <= |s.box.requests| && s.box.requests[..|v.box.requests|] == v.box.requests &&
            (v.outcome.Fail? ==> s == v) &&
            (v.outcome.Pass? ==> |s.box.requests| > |v.box.requests| && IsAuthenticationCall(s.box.requests[|v.box.requests|]))
  {
    var v := Validate(ip, b);
    if v.outcome.Pass? {
      LoginAsksFirst(ip, user, password, crypto, v.box);
    }
  }

  /** The failures of the constructor: a validation failure as it is; a transport failure
      during login is an authentication failure, and a missing UTF-8 or SHA-1 an
      `IllegalStateException`, never an authentication failure. */
  lemma ConstructFailures(ip: string, user: string, password: string, crypto: Crypto, b: Box)
    ensures var v := Validate(ip, b);
            var s := Construct(ip, user, password, crypto, b);
            var l := Login(ip, user, password, crypto, v.box);
            (s.outcome == Fail(ArgoAuthentication(ip)) <==> v.outcome.Pass? && l.outcome == Fail(JsonRpc)) &&
            (s.outcome == Fail(IllegalState) <==>
               v.outcome.Pass? && (l.outcome == Fail(NoSuchAlgorithm) || l.outcome == Fail(UnsupportedEncoding))) &&
            (s.outcome.Pass? <==> v.outcome.Pass? && l.outcome.Pass?) &&
            (s.outcome.Fail? ==> IsValidationError(s.outcome.error, ip) || s.outcome.error == ArgoAuthentication(ip) ||
                                 s.outcome.error == IllegalState || s.outcome.error == IllegalArgument)
  {
  }

  /* ------------------------------------------------------------ the methods */

  /** `initClient(ip)`: a transport for the box's JSON-RPC endpoint with both timeouts at
      `TIMEOUT_MS`. */
  method InitClient(ip: string, posts: seq<PostReply>, calls: seq<CallReply>) returns (client: JabsorbRPCClient)
    ensures fresh(client) && client.uri == JSONRPCURL(ip)
    ensures client.connectionTimeout == TIMEOUT_MS && client.soTimeout == TIMEOUT_MS
    ensures client.State() == Box(posts, calls, [])
  {
    client := new JabsorbRPCClient(JSONRPCURL(ip), posts, calls);
    client.SetConnectionTimeout(TIMEOUT_MS);
    client.SetSoTimeout(TIMEOUT_MS);
  }

  /** `validateClient(ip, client)`. */
  method ValidateClient(ip: string, client: JabsorbRPCClient) returns (o: Outcome<Exception>)
    modifies client
    ensures Run(o, client.State()) == Validate(ip, old(client.State()))
    ensures client.connectionTimeout == old(client.connectionTimeout) && client.soTimeout == old(client.soTimeout)
  {
    var response := client.PerformPost(ArgoURL(ip));
    if response.Failure? {
      return Fail(ValidationFailure(response.error, ip));
    }
    if response.value != 204 {
      return Fail(IncompatibleRemoteDevice(ip));
    }
    var version := client.Call(GET_VERSION_STRING, []);
    if version.Failure? {
      return Fail(ValidationFailure(version.error, ip));
    }
    var supported := IsSupportedVersion(version.value);
    if supported.Failure? {
      return Fail(ValidationFailure(supported.error, ip));
    }
    if !supported.value {
      return Fail(IncompatibleSoftwareVersion(version.value.value));
    }
    o := Pass;
  }

  /** `login(client, user, password, ip)`. */
  method LoginClient(client: JabsorbRPCClient, user: string, password: string, ip: string, crypto: Crypto)
    returns (o: Outcome<Exception>)
    modifies client
    ensures Run(o, client.State()) == Login(ip, user, password, crypto, old(client.State()))
    ensures client.connectionTimeout == old(client.connectionTimeout) && client.soTimeout == old(client.soTimeout)
  {
    var name := client.Call(GET_AUTHORIZED_USER_NAME, []);
    if name.Failure? {
      return Fail(name.error);
    }
    if name.value.Some? && name.value.value != "null" {
      return Pass;
    }
    var challenge := client.Call(GET_LOGIN_CHALLENGE, [user]);
    if challenge.Failure? {
      return Fail(challenge.error);
    }
    var digest := Digest(crypto, DigestInput(challenge.value, user, password));
    if digest.Failure? {
      return Fail(digest.error);
    }
    var answer := client.Call(LOGIN, [digest.value]);
    if answer.Failure? {
      return Fail(answer.error);
    }
    var response := client.PerformPost(ArgoURL(ip));
    if response.Failure? {
      return Fail(response.error);
    }
    if challenge.value.None? {
      return Fail(NullPointer);
    }
    var name2 := client.Call(GET_AUTHORIZED_USER_NAME, []);
    if name2.Failure? {
      return Fail(name2.error);
    }
    o := Pass;
  }

  /** `ensureValid(ip)`: validation on a fresh transport, without logging in. */
  method EnsureValid(ip: string, posts: seq<PostReply>, calls: seq<CallReply>)
    returns (o: Outcome<Exception>, client: JabsorbRPCClient)
    ensures fresh(client) && client.uri == JSONRPCURL(ip)
    ensures Run(o, client.State()) == Validate(ip, Box(posts, calls, []))
  {
    client := InitClient(ip, posts, calls);
    o := ValidateClient(ip, client);
  }

  /** `call(name, params)` on an open session: a transport failure becomes an
      `ArgoException` carrying `message`. */
  function Rethrown(r: Result<Option<string>, Exception>, message: string): (w: Result<Option<string>, Exception>)
    ensures w.Success? <==> r.Success?
    ensures w.Success? ==> w.value == r.value
    ensures r.Failure? && r.error == JsonRpc ==> w == Failure(ArgoFailure(message))
  {
    match r
    case Success(v) => Success(v)
    case Failure(e) => Failure(if e == JsonRpc then ArgoFailure(message) else e)
  }

  /** Every failure a session call reports is an `ArgoException`. */
  lemma SessionCallsThrowArgoExceptions(b: Box, name: string, params: seq<string>, message: string)
    ensures Rethrown(CallStep(b, name, params).0, message).Failure? ==>
              IsArgoException(Rethrown(CallStep(b, name, params).0, message).error)
  {
  }

  class ArgoClient {
    const client: JabsorbRPCClient

    /** The object a successful construction yields, around its transport. */
    constructor (client: JabsorbRPCClient)
      ensures this.client == client
    {
      this.client := client;
    }

    /** `new ArgoClient(ip, user, password)` against a box that will give the scripted
        replies: the new client on success, or the exception; in both cases the transport,
        to show what was sent. */
    static method Open(ip: string, user: string, password: string, crypto: Crypto,
                       posts: seq<PostReply>, calls: seq<CallReply>)
      returns (r: Result<ArgoClient, Exception>, transport: JabsorbRPCClient)
      ensures fresh(transport) && transport.uri == JSONRPCURL(ip)
      ensures transport.connectionTimeout == TIMEOUT_MS && transport.soTimeout == TIMEOUT_MS
      ensures var s := Construct(ip, user, password, crypto, Box(posts, calls, []));
              transport.State() == s.box &&
              (r.Success? <==> s.outcome.Pass?) &&
              (r.Failure? ==> s.outcome == Fail(r.error)) &&
              (r.Success? ==> fresh(r.value) && r.value.client == transport)
    {
      transport := InitClient(ip, posts, calls);
      var valid := ValidateClient(ip, transport);
      if valid.Fail? {
        return Failure(valid.error), transport;
      }
      var login := LoginClient(transport, user, password, ip, crypto);
      if login.Fail? {
        return Failure(LoginFailure(login.error, ip)), transport;
      }
      var argo := new ArgoClient(transport);
      r := Success(argo);
    }

    /** `call(name, params)`. */
    method Call(name: string, params: seq<string>) returns (r: Result<Option<string>, Exception>)
      modifies client
      ensures var step := CallStep(old(client.State()), name, params);
              r == Rethrown(step.0, "Failed to call " + name) && client.State() == step.1
    {
      var reply := client.Call(name, params);
      r := Rethrown(reply, "Failed to call " + name);
    }

    /** `sendRemoteControlKey(key)`. */
    method SendRemoteControlKey(key: string) returns (o: Outcome<Exception>)
      modifies client
      ensures var step := CallStep(old(client.State()), REMOTE_CONTROL_KEY_PRESSED, [key]);
              (o.Pass? <==> step.0.Success?) &&
              (o.Fail? ==> o.error == ArgoFailure("Failed to send key " + key)) &&
              client.State() == step.1
    {
      var reply := client.Call(REMOTE_CONTROL_KEY_PRESSED, [key]);
      if reply.Failure? {
        return Fail(ArgoFailure("Failed to send key " + key));
      }
      o := Pass;
    }

    /** `sendHOMEKeyIgnoreErrors()`: presses HOME and reports nothing, whatever happens. */
    method SendHOMEKeyIgnoreErrors()
      modifies client
      ensures client.State() == CallStep(old(client.State()), REMOTE_CONTROL_KEY_PRESSED, ["HOME"]).1
    {
      var ignored := SendRemoteControlKey("HOME");
    }
  }
}
