/**
  The client of the build-orchestration API (api/api.go): the endpoint URL,
  the request that carries the shared variables, and the decision whether a
  response means success, with the error text when it does not.
 */
module Api {
  import opened Wrappers
  import opened GoStrings
  import opened Decimal

  /** One shared variable as the API receives it. */
  datatype SharedEnvVar = SharedEnvVar(key: string, value: string, sensitive: bool)

  /** The request value that is serialised into the POST body. */
  datatype ShareEnvVarsRequest = ShareEnvVarsRequest(sharedEnvs: seq<SharedEnvVar>)

  /** The client keeps the endpoint URL and the token it authenticates with. */
  datatype BitriseClient = BitriseClient(url: string, authToken: string)

  const EndpointPrefix: string := "/pipeline/workflow_builds/"
  const EndpointSuffix: string := "/env_vars"

  /** The build slug in an endpoint URL built on `appURL`, if `url` has that shape. */
  function SlugOf(appURL: string, url: string): Option<string> {
    var head := appURL + EndpointPrefix;
    if |url| >= |head| + |EndpointSuffix|
       && url[..|head|] == head
       && url[|url| - |EndpointSuffix|..] == EndpointSuffix
    then Some(url[|head|..|url| - |EndpointSuffix|])
    else None
  }

  /**
    The client for one build: its URL is the app URL followed by the
    workflow-build path of that build, from which the slug can be read back.
   */
  function NewBitriseClient(appURL: string, buildSlug: string, authToken: string): (c: BitriseClient)
    ensures c.authToken == authToken
    ensures |c.url| >= |appURL| && c.url[..|appURL|] == appURL
    ensures c.url[|appURL|..] == EndpointPrefix + buildSlug + EndpointSuffix
    ensures SlugOf(appURL, c.url) == Some(buildSlug)
  {
    var path := EndpointPrefix + buildSlug + EndpointSuffix;
    var url := appURL + path;
    var head := appURL + EndpointPrefix;
    assert url == head + (buildSlug + EndpointSuffix);
    assert url[..|head|] == head;
    assert url[|url| - |EndpointSuffix|..] == EndpointSuffix;
    assert url[|head|..|url| - |EndpointSuffix|] == buildSlug;
    BitriseClient(url, authToken)
  }

  /** Two builds of one app never share an endpoint. */
  lemma EndpointInjective(appURL: string, slug1: string, slug2: string, token: string)
    requires NewBitriseClient(appURL, slug1, token).url == NewBitriseClient(appURL, slug2, token).url
    ensures slug1 == slug2
  {
    assert SlugOf(appURL, NewBitriseClient(appURL, slug1, token).url) == Some(slug1);
    assert SlugOf(appURL, NewBitriseClient(appURL, slug2, token).url) == Some(slug2);
  }

  // ---------------------------------------------------------------------------
  // The request body, as the JSON value `encoding/json` builds from the struct
  // tags `shared_envs`, `key`, `value` and `is_sensitive`.

  datatype Json =
    | Null
    | Bool(b: bool)
    | Str(s: string)
    | Array(items: seq<Json>)
    | Object(members: seq<(string, Json)>)

  function EncodeSharedEnvVar(v: SharedEnvVar): Json {
    Object([("key", Str(v.key)), ("value", Str(v.value)), ("is_sensitive", Bool(v.sensitive))])
  }

  function EncodeSharedEnvVars(vs: seq<SharedEnvVar>): (items: seq<Json>)
    ensures |items| == |vs|
  {
    if |vs| == 0 then [] else [EncodeSharedEnvVar(vs[0])] + EncodeSharedEnvVars(vs[1..])
  }

  /**
    The body object. An empty list is the nil slice that the step hands
    over when there are no records, which `encoding/json` writes as null.
   */
  function EncodeRequest(r: ShareEnvVarsRequest): (j: Json)
    ensures j.Object? && |j.members| == 1 && j.members[0].0 == "shared_envs"
    ensures j.members[0].1 == Null <==> |r.sharedEnvs| == 0
    ensures j.members[0].1 != Null ==> j.members[0].1.Array? && |j.members[0].1.items| == |r.sharedEnvs|
  {
    Object([("shared_envs", if |r.sharedEnvs| == 0 then Null else Array(EncodeSharedEnvVars(r.sharedEnvs)))])
  }

  /** The value of the first member called `name`. */
  function Member(members: seq<(string, Json)>, name: string): Option<Json> {
    if |members| == 0 then None
    else if members[0].0 == name then Some(members[0].1)
    else Member(members[1..], name)
  }

  /** What a receiver reading the same tags recovers from one array element. */
  function DecodeSharedEnvVar(j: Json): Option<SharedEnvVar> {
    match j
    case Object(ms) =>
      (match (Member(ms, "key"), Member(ms, "value"), Member(ms, "is_sensitive"))
       case (Some(Str(k)), Some(Str(v)), Some(Bool(b))) => Some(SharedEnvVar(k, v, b))
       case _ => None)
    case _ => None
  }

  function DecodeSharedEnvVars(items: seq<Json>): Option<seq<SharedEnvVar>> {
    if |items| == 0 then Some([])
    else match (DecodeSharedEnvVar(items[0]), DecodeSharedEnvVars(items[1..]))
      case (Some(v), Some(vs)) => Some([v] + vs)
      case _ => None
  }

  /** What a receiver reading the same tags recovers from the body. */
  function DecodeRequest(j: Json): Option<ShareEnvVarsRequest> {
    match j
    case Object(ms) =>
      (match Member(ms, "shared_envs")
       case Some(Null) => Some(ShareEnvVarsRequest([]))
       case Some(Array(items)) =>
         (match DecodeSharedEnvVars(items)
          case Some(vs) => Some(ShareEnvVarsRequest(vs))
          case None => None)
       case _ => None)
    case _ => None
  }

  lemma {:induction false} SharedEnvVarsRoundTrip(vs: seq<SharedEnvVar>)
    ensures DecodeSharedEnvVars(EncodeSharedEnvVars(vs)) == Some(vs)
  {
    if |vs| > 0 {
      SharedEnvVarsRoundTrip(vs[1..]);
      var items := EncodeSharedEnvVars(vs);
      var ms := items[0].members;
      assert Member(ms, "key") == Some(Str(vs[0].key));
      assert Member(ms, "value") == Some(Str(vs[0].value));
      assert Member(ms[2..], "is_sensitive") == Some(Bool(vs[0].sensitive));
      assert Member(ms[1..], "is_sensitive") == Member(ms[1..][1..], "is_sensitive");
      assert Member(ms, "is_sensitive") == Some(Bool(vs[0].sensitive));
      assert DecodeSharedEnvVar(items[0]) == Some(vs[0]);
      assert items[1..] == EncodeSharedEnvVars(vs[1..]);
      assert [vs[0]] + vs[1..] == vs;
    }
  }

  /** The receiver reads back every record, unchanged and in order. */
  lemma RequestRoundTrip(r: ShareEnvVarsRequest)
    ensures DecodeRequest(EncodeRequest(r)) == Some(r)
  {
    SharedEnvVarsRoundTrip(r.sharedEnvs);
  }

  // ---------------------------------------------------------------------------
  // The response.

  /**
    What became of the response body: it could not be read, it was not a
    JSON object of strings, or it was one.
   */
  datatype ResponseBody = ReadFailed | NotStringMap | StringMap(fields: map<string, string>)

  /** The parts of an HTTP response the check looks at. */
  datatype Response = Response(requestURL: string, statusCode: int, body: ResponseBody)

  const MessageSeparator: string := ", message: "

  function StatusErrorHead(url: string): string {
    "request to " + url + " failed: status code should be 2xx ("
  }

  /**
    The error for a non-2xx status, before any message from the server: the
    fixed head, the `%d` text of the code, and a closing parenthesis.
   */
  function StatusError(url: string, statusCode: int): (s: string)
    ensures |s| > |StatusErrorHead(url)| && s[..|StatusErrorHead(url)|] == StatusErrorHead(url) && s[|s| - 1] == ')'
    ensures s[|StatusErrorHead(url)|..|s| - 1] == IntToDecimal(statusCode)
  {
    var head := StatusErrorHead(url);
    var digits := IntToDecimal(statusCode);
    var s := head + digits + ")";
    assert s[..|head|] == head && s[|head|..|s| - 1] == digits;
    s
  }

  /**
    `checkEnvVarShareResponse`: no error for a 2xx status; otherwise the
    status error, followed by the server's `error_msg` when the body was a
    readable JSON object of strings with a non-empty `error_msg`.
   */
  function CheckEnvVarShareResponse(resp: Response): (err: Option<string>)
    ensures err.None? <==> 200 <= resp.statusCode < 300
    ensures err.Some? && (resp.body.ReadFailed? || resp.body.NotStringMap?) ==>
      err.value == StatusError(resp.requestURL, resp.statusCode)
    ensures err.Some? && resp.body.StringMap? && ("error_msg" !in resp.body.fields || resp.body.fields["error_msg"] == "") ==>
      err.value == StatusError(resp.requestURL, resp.statusCode)
    ensures err.Some? && resp.body.StringMap? && "error_msg" in resp.body.fields && resp.body.fields["error_msg"] != "" ==>
      err.value == StatusError(resp.requestURL, resp.statusCode) + MessageSeparator + resp.body.fields["error_msg"]
  {
    if 200 <= resp.statusCode < 300 then None
    else
      var respErr := StatusError(resp.requestURL, resp.statusCode);
      match resp.body
      case ReadFailed => Some(respErr)
      case NotStringMap => Some(respErr)
      case StringMap(fields) =>
        if "error_msg" !in fields || fields["error_msg"] == "" then Some(respErr)
        else Some(respErr + MessageSeparator + fields["error_msg"])
  }

  /** The message the server supplied, or "" when it supplied none that is shown. */
  function ServerMessage(body: ResponseBody): string {
    match body
    case StringMap(fields) => if "error_msg" in fields then fields["error_msg"] else ""
    case _ => ""
  }

  /** Reads an error text for requests to `url` back into the status code and the server's message. */
  function ParseStatusError(url: string, text: string): Option<(int, string)> {
    var head := StatusErrorHead(url);
    if |text| < |head| || text[..|head|] != head then None
    else
      var rest := text[|head|..];
      match IndexOf(rest, ')')
      case None => None
      case Some(i) =>
        match ParseInt(rest[..i])
        case None => None
        case Some(code) =>
          var tail := rest[i + 1..];
          if tail == "" then Some((code, ""))
          else if |tail| > |MessageSeparator| && tail[..|MessageSeparator|] == MessageSeparator then
            Some((code, tail[|MessageSeparator|..]))
          else None
  }

  /** The status error followed by `tail` reads back as the code and what `tail` carries. */
  lemma ReadStatusError(url: string, code: int, tail: string)
    ensures ParseStatusError(url, StatusError(url, code) + tail)
         == if tail == "" then Some((code, ""))
            else if |tail| > |MessageSeparator| && tail[..|MessageSeparator|] == MessageSeparator then
              Some((code, tail[|MessageSeparator|..]))
            else None
  {
    var head := StatusErrorHead(url);
    var digits := IntToDecimal(code);
    assert StatusError(url, code) == head + digits + ")";
    var text := StatusError(url, code) + tail;
    assert text == head + (digits + ")" + tail);
    assert text[..|head|] == head;
    var rest := text[|head|..];
    assert rest == digits + ")" + tail;
    assert rest[|digits|] == ')';
    assert rest[..|digits|] == digits;
    assert rest[|digits| + 1..] == tail;
    assert ')' !in digits by {
      forall k | 0 <= k < |digits| ensures digits[k] != ')' {
        if k > 0 || code >= 0 { assert IsDigit(digits[k]); }
      }
    }
    IndexOfFirst(rest, ')', |digits|);
    IntRoundTrip(code);
  }

  /** Every error names the status code and carries the server's message, and both can be read back. */
  lemma ErrorRoundTrip(resp: Response)
    requires CheckEnvVarShareResponse(resp).Some?
    ensures ParseStatusError(resp.requestURL, CheckEnvVarShareResponse(resp).value)
         == Some((resp.statusCode, ServerMessage(resp.body)))
  {
    var msg := ServerMessage(resp.body);
    var tail := if msg == "" then "" else MessageSeparator + msg;
    assert CheckEnvVarShareResponse(resp).value == StatusError(resp.requestURL, resp.statusCode) + tail;
    ReadStatusError(resp.requestURL, resp.statusCode, tail);
    if msg != "" {
      assert tail[..|MessageSeparator|] == MessageSeparator;
      assert tail[|MessageSeparator|..] == msg;
    }
  }

  // ---------------------------------------------------------------------------
  // `ShareEnvVars`: the request it sends and the error it returns.

  datatype Header = Header(name: string, value: string)

  datatype Request = Request(httpMethod: string, url: string, headers: seq<Header>, body: Json)

  /** The value of the first header called `name`. */
  function HeaderValue(headers: seq<Header>, name: string): Option<string> {
    if |headers| == 0 then None
    else if headers[0].name == name then Some(headers[0].value)
    else HeaderValue(headers[1..], name)
  }

  /** What the HTTP client reported: a failure to send, or a response. */
  datatype Transport = TransportFailed(cause: string) | Responded(statusCode: int, body: ResponseBody)

  /** The request that went out and the error, if any, returned to the caller. */
  datatype Exchange = Exchange(request: Request, err: Option<string>)

  /**
    `ShareEnvVars`: POSTs the records, wrapped unchanged under
    `shared_envs`, to the client's URL with its token; the transport's own
    failure is returned as it is, otherwise the response is checked.
   */
  function ShareEnvVars(c: BitriseClient, envVars: seq<SharedEnvVar>, transport: Transport): (x: Exchange)
    ensures x.request.httpMethod == "POST" && x.request.url == c.url
    ensures HeaderValue(x.request.headers, "content-type") == Some("application/json; charset=UTF-8")
    ensures HeaderValue(x.request.headers, "X-HTTP_BUILD_API_TOKEN") == Some(c.authToken)
    ensures DecodeRequest(x.request.body) == Some(ShareEnvVarsRequest(envVars))
    ensures x.err.None? <==> transport.Responded? && 200 <= transport.statusCode < 300
    ensures transport.TransportFailed? ==> x.err == Some(transport.cause)
    ensures transport.Responded? ==>
      x.err == CheckEnvVarShareResponse(Response(c.url, transport.statusCode, transport.body))
  {
    var shareEnvVarsReq := ShareEnvVarsRequest(envVars);
    RequestRoundTrip(shareEnvVarsReq);
    var req := Request("POST", c.url,
      [Header("content-type", "application/json; charset=UTF-8"), Header("X-HTTP_BUILD_API_TOKEN", c.authToken)],
      EncodeRequest(shareEnvVarsReq));
    match transport
    case TransportFailed(cause) => Exchange(req, Some(cause))
    case Responded(statusCode, body) => Exchange(req, CheckEnvVarShareResponse(Response(c.url, statusCode, body)))
  }
}
