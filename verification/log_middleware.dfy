/** `RequestResponseLogMiddleware` (logger/middleware.py): the path
    exclusion rule, body capture, and the one log row written per logged
    request. The wall-clock duration is an opaque input. */
module LogMiddleware {
  import opened Wrappers
  import opened Json
  import opened Text
  import opened RequestLogs

  newtype byte = x: int | 0 <= x < 256

  /** The fixed prefixes whose requests are never logged. */
  const ExcludedPaths: seq<string> := [
    "/logger/",
    "/swagger/",
    "/redoc/",
    "/api/schema/",
    "/favicon.ico/",
    "/robots.txt/",
    "/sitemap.xml/",
    "/favicon-32x32.png/",
    "/favicon-16x16.png/",
    "/site.webmanifest/",
    "/apple-touch-icon.png/",
    "/apple-touch-icon-precomposed.png/"
  ]

  /** No prefix in `prefixes` starts `path`. */
  function NoPrefixMatches(prefixes: seq<string>, path: string): (r: bool)
    ensures r <==> forall i :: 0 <= i < |prefixes| ==> !StartsWith(path, prefixes[i])
    decreases |prefixes|
  {
    |prefixes| == 0 || (!StartsWith(path, prefixes[0]) && NoPrefixMatches(prefixes[1..], path))
  }

  /** `should_log_request`: false exactly when the path starts with one of
      the excluded prefixes. */
  function ShouldLogRequest(path: string): (r: bool)
    ensures !r <==> exists i :: 0 <= i < |ExcludedPaths| && StartsWith(path, ExcludedPaths[i])
  {
    NoPrefixMatches(ExcludedPaths, path)
  }

  /** The prefixes end in '/', so the browser's bare favicon request is
      logged, and so is the health check; the log viewer and the API
      documentation are not. */
  lemma ExclusionBoundaries()
    ensures ShouldLogRequest("/favicon.ico")
    ensures ShouldLogRequest("/health-check/")
    ensures !ShouldLogRequest("/logger/logs/")
    ensures !ShouldLogRequest("/swagger/")
    ensures !ShouldLogRequest("/favicon.ico/")
  {
    FaviconWithoutSlashIsLogged();
    HealthCheckIsLogged();
    ExcludedPrefixesAreNotLogged();
  }

  /** The log viewer, the API docs and the favicon (with its slash) are
      excluded by their own prefixes. */
  lemma ExcludedPrefixesAreNotLogged()
    ensures !ShouldLogRequest("/logger/logs/")
    ensures !ShouldLogRequest("/swagger/")
    ensures !ShouldLogRequest("/favicon.ico/")
  {
    assert StartsWith("/logger/logs/", ExcludedPaths[0]);
    assert StartsWith("/swagger/", ExcludedPaths[1]);
    assert StartsWith("/favicon.ico/", ExcludedPaths[4]);
  }

  /** The favicon prefix ends in a slash, so the bare favicon path is logged. */
  lemma FaviconWithoutSlashIsLogged()
    ensures ShouldLogRequest("/favicon.ico")
  {
    var favicon := "/favicon.ico";
    forall i | 0 <= i < |ExcludedPaths|
      ensures !StartsWith(favicon, ExcludedPaths[i])
    {
      if i == 4 {
        assert |ExcludedPaths[i]| > |favicon|;
      } else if i == 7 || i == 8 {
        NotPrefixAt(favicon, ExcludedPaths[i], 8);
      } else {
        NotPrefixAt(favicon, ExcludedPaths[i], 1);
      }
    }
  }

  /** No excluded prefix starts the health check, so it is logged. */
  lemma HealthCheckIsLogged()
    ensures ShouldLogRequest("/health-check/")
  {
    forall i | 0 <= i < |ExcludedPaths|
      ensures !StartsWith("/health-check/", ExcludedPaths[i])
    {
      NotPrefixAt("/health-check/", ExcludedPaths[i], 1);
    }
  }

  /** What `json.loads` does with a body: a value, a `JSONDecodeError`, or
      some other exception (e.g. a `UnicodeDecodeError` while it detects
      and applies the text encoding). */
  datatype LoadOutcome = Loaded(value: Json) | JsonDecodeError | LoadRaised(exception: string)

  /** The two library decoders the middleware calls, as parameters:
      `json.loads` and `bytes.decode('utf-8')` (`None` when the bytes are
      not UTF-8, where Python raises). */
  datatype Decoders = Decoders(loads: seq<byte> -> LoadOutcome, utf8: seq<byte> -> Option<string>)

  /** `json.loads(b)`, falling back to `b.decode('utf-8')` only on a JSON
      decode error; every other exception propagates. */
  function ParseOrText(b: seq<byte>, dec: Decoders): (r: Result<Json>)
    ensures dec.loads(b).Loaded? ==> r == Ok(dec.loads(b).value)
    ensures dec.loads(b).JsonDecodeError? && dec.utf8(b).Some? ==> r == Ok(JStr(dec.utf8(b).value))
    ensures dec.loads(b).JsonDecodeError? && dec.utf8(b).None? ==> r.Err?
    ensures dec.loads(b).LoadRaised? ==> r == Err(dec.loads(b).exception)
  {
    match dec.loads(b)
    case Loaded(v) => Ok(v)
    case LoadRaised(e) => Err(e)
    case JsonDecodeError =>
      match dec.utf8(b)
      case Some(text) => Ok(JStr(text))
      case None => Err("UnicodeDecodeError")
  }

  /** The request body as stored: null for an empty body, otherwise as
      `ParseOrText` reads it; a read of the body that raises propagates. */
  function CaptureRequest(body: Result<seq<byte>>, dec: Decoders): (r: Result<Json>)
    ensures body.Err? ==> r == Err(body.error)
    ensures body.Ok? && |body.value| == 0 ==> r == Ok(JNull)
    ensures body.Ok? && |body.value| > 0 ==> r == ParseOrText(body.value, dec)
  {
    match body
    case Err(e) => Err(e)
    case Ok(b) => if |b| == 0 then Ok(JNull) else ParseOrText(b, dec)
  }

  /** The response body as stored: null when the response has no `content`
      attribute, otherwise as `ParseOrText` reads it (an empty content is
      parsed too). */
  function CaptureResponse(content: Option<seq<byte>>, dec: Decoders): (r: Result<Json>)
    ensures content.None? ==> r == Ok(JNull)
    ensures content.Some? ==> r == ParseOrText(content.value, dec)
  {
    match content
    case None => Ok(JNull)
    case Some(b) => ParseOrText(b, dec)
  }

  /** The parts of the request the middleware reads; `remoteAddr` and
      `userAgent` are the `REMOTE_ADDR` and `HTTP_USER_AGENT` entries of
      `request.META`, absent keys being `None`. `body` is what reading
      `request.body` gives: the bytes, or the exception the read raises
      (Django's `RequestDataTooBig` for a body over its upload limit). */
  datatype HttpRequest = HttpRequest(
    path: string, httpMethod: string, body: Result<seq<byte>>,
    remoteAddr: Option<string>, userAgent: Option<string>)

  /** The parts of the response it reads; `content` is `None` when the
      response has no `content` attribute, `errorMessage` is the
      `error_message` attribute or `None`. */
  datatype HttpResponse = HttpResponse(statusCode: int, content: Option<seq<byte>>, errorMessage: Option<string>)

  /** The middleware either returns a response, with the log table after
      the call, or lets an exception escape. `handlerRan` says whether the
      downstream handler was called before the exception. */
  datatype Outcome =
    | Returned(response: HttpResponse, logs: seq<RequestLog>)
    | Raised(exception: string, handlerRan: bool)

  /** `__call__`: excluded paths go straight to the handler; any other
      request has its body captured, is handed to the handler, has the
      response body captured, and gets one log row inserted at time `now`.
      Nothing is caught: a decode or insert failure escapes. */
  function Handle(
    req: HttpRequest, getResponse: HttpRequest -> HttpResponse, dec: Decoders,
    logs: seq<RequestLog>, now: int, duration: real
  ): (o: Outcome)
    requires ValidTable(logs)
    ensures !ShouldLogRequest(req.path) ==> o == Returned(getResponse(req), logs)
    ensures o.Returned? ==> o.response == getResponse(req) && ValidTable(o.logs)
    ensures o.Raised? ==> ShouldLogRequest(req.path)
    ensures o.Raised? ==> (o.handlerRan <==> CaptureRequest(req.body, dec).Ok?)
    ensures ShouldLogRequest(req.path) ==>
      (o.Returned? <==>
        && CaptureRequest(req.body, dec).Ok?
        && CaptureResponse(getResponse(req).content, dec).Ok?
        && |req.path| <= PathMaxLength && |req.httpMethod| <= MethodMaxLength)
    ensures ShouldLogRequest(req.path) && o.Returned? ==>
      && |o.logs| == |logs| + 1
      && o.logs[..|logs|] == logs
      && var row := o.logs[|logs|];
      && row.path == req.path && row.httpMethod == req.httpMethod
      && row.statusCode == o.response.statusCode
      && row.requestData == CaptureRequest(req.body, dec).value
      && row.responseData == CaptureResponse(o.response.content, dec).value
      && row.ipAddress == req.remoteAddr && row.userAgent == req.userAgent
      && row.errorMessage == o.response.errorMessage
      && row.timestamp == now && row.duration == duration
  {
    if !ShouldLogRequest(req.path) then
      Returned(getResponse(req), logs)
    else
      match CaptureRequest(req.body, dec)
      case Err(e) => Raised(e, false)
      case Ok(requestData) =>
        var response := getResponse(req);
        match CaptureResponse(response.content, dec)
        case Err(e) => Raised(e, true)
        case Ok(responseData) =>
          match Create(logs, now, req.path, req.httpMethod, requestData, responseData,
                       response.statusCode, duration, req.remoteAddr, req.userAgent,
                       response.errorMessage)
          case Err(e) => Raised(e, true)
          case Ok(logs') => Returned(response, logs')
  }

  /** Logging is transparent: whenever the middleware returns, the caller
      gets exactly what the handler produced, and a logged request adds
      one row whose status is the status the caller received. */
  lemma LoggedStatusIsReturnedStatus(
    req: HttpRequest, getResponse: HttpRequest -> HttpResponse, dec: Decoders,
    logs: seq<RequestLog>, now: int, duration: real)
    requires ValidTable(logs)
    ensures var o := Handle(req, getResponse, dec, logs, now, duration);
      o.Returned? ==>
      && o.response == getResponse(req)
      && (ShouldLogRequest(req.path) <==> |o.logs| == |logs| + 1)
      && (ShouldLogRequest(req.path) ==> o.logs[|logs|].statusCode == getResponse(req).statusCode)
      && (!ShouldLogRequest(req.path) <==> o.logs == logs)
  {
  }
}
