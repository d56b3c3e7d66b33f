/** The browser-side helpers of `src/lib/api.ts`: building request URLs
    from the optional deployment base `VITE_API_BASE`, and choosing what
    `getFeedbacks` and `createFeedback` return or throw once `fetch` has
    settled. The settled fetch is an input: a rejection, or a status with
    the body `response.json()` yields (or the error it rejects with). */
module ApiClient {
  import opened Base
  import opened JsString
  import opened Json
  import opened FeedbackStore
  import opened Wire

  /** A string that starts with `/`. */
  predicate StartsWithSlash(s: string)
  {
    |s| > 0 && s[0] == '/'
  }

  /** `path.startsWith("/") ? path : "/" + path`. */
  function NormalizePath(path: string): (r: string)
    ensures StartsWithSlash(r)
    ensures r == path <==> StartsWithSlash(path)
    ensures !StartsWithSlash(path) ==> r[1..] == path
  {
    if StartsWithSlash(path) then path else "/" + path
  }

  /** `s.replace(/\/+$/, "")`: the longest run of `/` at the end goes. */
  function StripTrailingSlashes(s: string): (r: string)
    ensures |r| <= |s| && r == s[..|r|]
    ensures forall k :: |r| <= k < |s| ==> s[k] == '/'
    ensures r == [] || r[|r| - 1] != '/'
    decreases |s|
  {
    if s != [] && s[|s| - 1] == '/' then StripTrailingSlashes(s[..|s| - 1]) else s
  }

  /** `!API_BASE || API_BASE.trim() === ""`: no usable base, so requests
      go to the same origin (through the dev proxy). */
  predicate BlankBase(base: Option<string>)
  {
    base.None? || Trim(base.value) == ""
  }

  /** `apiUrl(path)` for the configured `base`. */
  function ApiUrl(base: Option<string>, path: string): (r: string)
    ensures BlankBase(base) ==> r == NormalizePath(path)
    ensures !BlankBase(base) ==>
      var b := StripTrailingSlashes(base.value);
      && |r| == |b| + |NormalizePath(path)|
      && r[..|b|] == b && (b == [] || b[|b| - 1] != '/')
      && r[|b|..] == NormalizePath(path)
  {
    if BlankBase(base) then NormalizePath(path)
    else StripTrailingSlashes(base.value) + NormalizePath(path)
  }

  /** Every URL ends with the path as given. */
  lemma UrlEndsWithPath(base: Option<string>, path: string)
    ensures var r := ApiUrl(base, path);
      |r| > |path| || (|r| == |path| && StartsWithSlash(path))
    ensures var r := ApiUrl(base, path);
      |r| >= |path| && r[|r| - |path|..] == path
  {
    var n := NormalizePath(path);
    if !StartsWithSlash(path) {
      assert n[|n| - |path|..] == path;
    }
  }

  /** Giving the path its leading slash first changes nothing. */
  lemma {:induction false} ApiUrlIdempotent(base: Option<string>, path: string)
    ensures ApiUrl(base, NormalizePath(path)) == ApiUrl(base, path)
  {
    assert NormalizePath(NormalizePath(path)) == NormalizePath(path);
  }

  /** Extra slashes at the end of the base are stripped away with the
      rest. */
  lemma {:induction false} StripIgnoresSlashes(b: string, k: nat)
    ensures StripTrailingSlashes(b + Repeat('/', k)) == StripTrailingSlashes(b)
  {
    if k == 0 {
      assert b + Repeat('/', k) == b;
    } else {
      var s := b + Repeat('/', k);
      assert s[|s| - 1] == '/';
      assert s[..|s| - 1] == b + Repeat('/', k - 1);
      StripIgnoresSlashes(b, k - 1);
    }
  }

  /** A base with any number of trailing slashes gives the same URL as the
      base with none. */
  lemma {:induction false} TrailingSlashesIgnored(b: string, k: nat, path: string)
    requires Trim(b) != ""
    ensures ApiUrl(Some(b + Repeat('/', k)), path) == ApiUrl(Some(b), path)
  {
    TrimEmptyIffAllSpace(b);
    TrimEmptyIffAllSpace(b + Repeat('/', k));
    var j :| 0 <= j < |b| && !IsSpace(b[j]);
    assert (b + Repeat('/', k))[j] == b[j];
    StripIgnoresSlashes(b, k);
  }

  /** A settled `fetch`: the status, and what `response.json()` gives. */
  datatype HttpResponse = HttpResponse(status: int, body: Result<Json, Thrown>)

  /** A server reply as the browser receives it. */
  function Deliver(resp: Response): (h: HttpResponse)
    ensures h.status == resp.status && h.body.Ok?
  {
    HttpResponse(resp.status, Ok(ReplyJson(resp.reply)))
  }

  /** The error `getFeedbacks` throws for a non-2xx status. */
  function FetchFailed(status: int): string
  {
    "Failed to fetch feedbacks: " + IntToDecimal(status)
  }

  /** The error `createFeedback` throws when the body names no message. */
  function CreateFailed(status: int): string
  {
    "Failed to create feedback: " + IntToDecimal(status)
  }

  /** `data.data || []`: a falsy or missing `data` gives the empty array;
      a `null` body throws. */
  function DataOrEmpty(data: Json): (r: Result<Json, Thrown>)
    ensures data.JNull? <==> r.Err?
    ensures data.JObj? && "data" in data.fields && Truthy(data.fields["data"]) ==> r == Ok(data.fields["data"])
    ensures !data.JNull? && !(data.JObj? && "data" in data.fields && Truthy(data.fields["data"])) ==> r == Ok(JArr([]))
  {
    match Member(data, "data")
    case Err(e) => Err(e)
    case Ok(None) => Ok(JArr([]))
    case Ok(Some(v)) => Ok(if Truthy(v) then v else JArr([]))
  }

  /** `ApiClient.getFeedbacks` as written: a rejected fetch or body
      propagates, a non-2xx status throws, and otherwise the `data`
      property of the body is returned. */
  function GetFeedbacks(fetched: Result<HttpResponse, Thrown>): (r: Result<Json, Thrown>)
    ensures fetched.Err? ==> r == Err(fetched.error)
    ensures fetched.Ok? && !IsOk(fetched.value.status) ==> r == Err(ErrorValue(FetchFailed(fetched.value.status)))
    ensures fetched.Ok? && IsOk(fetched.value.status) ==>
      r == (match fetched.value.body
            case Err(e) => Err(e)
            case Ok(data) => DataOrEmpty(data))
  {
    match fetched
    case Err(e) => Err(e)
    case Ok(HttpResponse(status, body)) =>
      if !IsOk(status) then Err(ErrorValue(FetchFailed(status)))
      else
        match body
        case Err(e) => Err(e)
        case Ok(data) => DataOrEmpty(data)
  }

  /** Both servers send a listing as a bare array, which has no `data`
      property: `getFeedbacks` as written returns no entries, however many
      the server listed. */
  lemma ListingReadAsEmpty(items: seq<FeedbackDto>)
    ensures GetFeedbacks(Ok(Deliver(Response(200, Items(items), None)))) == Ok(JArr([]))
  {
    assert Member(ReplyJson(Items(items)), "data") == Ok(None);
  }

  /** `getFeedbacks` reading the listing the servers actually send: an
      array body is the list itself; any other body is read as before. */
  function GetFeedbacksFixed(fetched: Result<HttpResponse, Thrown>): (r: Result<Json, Thrown>)
    ensures fetched.Ok? && IsOk(fetched.value.status) && fetched.value.body.Ok? && fetched.value.body.value.JArr? ==>
      r == fetched.value.body
    ensures !(fetched.Ok? && IsOk(fetched.value.status) && fetched.value.body.Ok? && fetched.value.body.value.JArr?) ==>
      r == GetFeedbacks(fetched)
  {
    match fetched
    case Ok(HttpResponse(status, Ok(JArr(xs)))) =>
      if IsOk(status) then Ok(JArr(xs)) else GetFeedbacks(fetched)
    case _ => GetFeedbacks(fetched)
  }

  /** With the fix, the client reads back exactly the entries a listing
      reply carries, in order. */
  lemma ListingReadBack(items: seq<FeedbackDto>)
    ensures var r := GetFeedbacksFixed(Ok(Deliver(Response(200, Items(items), None))));
      && r.Ok? && r.value.JArr? && |r.value.items| == |items|
      && forall i :: 0 <= i < |items| ==> ReadDto(r.value.items[i]) == Some(items[i])
  {
  }

  /** The message of a failed create: a truthy `message` property printed
      with `String(...)`, or the status fallback; a `null` body throws a
      TypeError instead. */
  function CreateErrorMessage(errorData: Json, status: int): (r: Result<string, Thrown>)
    ensures errorData.JNull? <==> r.Err?
    ensures errorData.JObj? && "message" in errorData.fields && Truthy(errorData.fields["message"]) ==>
      r == Ok(ToJsString(errorData.fields["message"]))
    ensures !errorData.JNull? && !(errorData.JObj? && "message" in errorData.fields && Truthy(errorData.fields["message"])) ==>
      r == Ok(CreateFailed(status))
  {
    match Member(errorData, "message")
    case Err(e) => Err(e)
    case Ok(Some(m)) => Ok(if Truthy(m) then ToJsString(m) else CreateFailed(status))
    case Ok(None) => Ok(CreateFailed(status))
  }

  /** `ApiClient.createFeedback` as written: on a non-2xx status the body
      (or `{}` when it does not parse) supplies the thrown message;
      otherwise the parsed body is returned. */
  function CreateFeedback(fetched: Result<HttpResponse, Thrown>): (r: Result<Json, Thrown>)
    ensures fetched.Err? ==> r == Err(fetched.error)
    ensures fetched.Ok? && IsOk(fetched.value.status) ==> r == fetched.value.body
    ensures fetched.Ok? && !IsOk(fetched.value.status) && fetched.value.body.Err? ==>
      r == Err(ErrorValue(CreateFailed(fetched.value.status)))
    ensures fetched.Ok? && !IsOk(fetched.value.status) ==> r.Err?
  {
    match fetched
    case Err(e) => Err(e)
    case Ok(HttpResponse(status, body)) =>
      if IsOk(status) then body
      else
        var errorData := match body case Ok(j) => j case Err(_) => JObj(map[]);
        match CreateErrorMessage(errorData, status)
        case Ok(m) => Err(ErrorValue(m))
        case Err(e) => Err(e)
  }

  /** The servers reject with `{error: ...}`, which has no `message`: the
      client as written always shows the status fallback, never the
      server's reason. */
  lemma ServerReasonLost(status: int, reason: string)
    requires !IsOk(status)
    ensures CreateFeedback(Ok(Deliver(Response(status, ErrorReply(reason), None))))
         == Err(ErrorValue(CreateFailed(status)))
  {
    assert Member(ReplyJson(ErrorReply(reason)), "message") == Ok(None);
  }

  /** The thrown message read from the field the servers fill: a truthy
      `error`, else a truthy `message`, else the status fallback. */
  function CreateErrorMessageFixed(errorData: Json, status: int): (r: Result<string, Thrown>)
    ensures errorData.JNull? <==> r.Err?
    ensures errorData.JObj? && "error" in errorData.fields && Truthy(errorData.fields["error"]) ==>
      r == Ok(ToJsString(errorData.fields["error"]))
    ensures !errorData.JNull? && !(errorData.JObj? && "error" in errorData.fields && Truthy(errorData.fields["error"])) ==>
      r == CreateErrorMessage(errorData, status)
  {
    match Member(errorData, "error")
    case Err(e) => Err(e)
    case Ok(Some(m)) =>
      if Truthy(m) then Ok(ToJsString(m)) else CreateErrorMessage(errorData, status)
    case Ok(None) => CreateErrorMessage(errorData, status)
  }

  /** `createFeedback` with the message read from `error` first. */
  function CreateFeedbackFixed(fetched: Result<HttpResponse, Thrown>): (r: Result<Json, Thrown>)
    ensures fetched.Err? ==> r == Err(fetched.error)
    ensures fetched.Ok? && IsOk(fetched.value.status) ==> r == fetched.value.body
    ensures fetched.Ok? && !IsOk(fetched.value.status) ==> r.Err?
  {
    match fetched
    case Err(e) => Err(e)
    case Ok(HttpResponse(status, body)) =>
      if IsOk(status) then body
      else
        var errorData := match body case Ok(j) => j case Err(_) => JObj(map[]);
        match CreateErrorMessageFixed(errorData, status)
        case Ok(m) => Err(ErrorValue(m))
        case Err(e) => Err(e)
  }

  /** With the fix, a rejection carrying a reason shows that reason. */
  lemma ServerReasonShown(status: int, reason: string)
    requires !IsOk(status) && reason != ""
    ensures CreateFeedbackFixed(Ok(Deliver(Response(status, ErrorReply(reason), None))))
         == Err(ErrorValue(reason))
  {
    assert ReplyJson(ErrorReply(reason)) == JObj(map["error" := JStr(reason)]);
  }
}
