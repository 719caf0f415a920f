/**
 * The request pipeline stage every HTTP call passes through: it adds the
 * application's fixed headers to the outgoing request and turns every error
 * response into one user-facing message, which it re-raises as the failure.
 */
module HttpInterceptor {

  import opened Wrappers
  import opened Text
  import Decimal

  /** What a subscriber to a request finally sees: the payload, or the failure value. */
  datatype Outcome<+T> = Success(value: T) | Failure(message: string)

  /**
   * An outgoing request. Header names are looked up case-insensitively, so the
   * map is keyed by the lower-cased name; a name may carry several values.
   */
  datatype HttpRequest = HttpRequest(verb: string, url: string, headers: map<string, seq<string>>)

  /** The `error` payload of an error response: a client-side `ErrorEvent`, or anything else. */
  datatype ErrorPayload = ErrorEvent(message: string) | OtherPayload

  datatype HttpErrorResponse = HttpErrorResponse(error: ErrorPayload, status: int, message: string)

  /** What the next handler in the chain produces for a request. */
  datatype HttpResult<+T> = Response(body: T) | ErrorResponse(err: HttpErrorResponse)

  const ContentTypeName := "content-type"
  const AppVersionName := "x-app-version"
  const ContentTypeValue := "application/json"
  const AppVersionValue := "1.0.0"

  const Placeholder := "An unexpected error occurred"
  const NetworkPrefix := "Network error: "
  // The two longer messages are written as two literals each: the verifier
  // reads the characters of a shorter literal more readily.
  const ConnectionMessage := "Unable to connect to server." + " Please check your internet connection."
  const UnauthorizedMessage := "Unauthorized access. Please login again."
  const ForbiddenMessage := "Access forbidden." + " You do not have permission."
  const NotFoundMessage := "Resource not found."
  const InternalErrorMessage := "Server error. Please try again later."
  const ServerPrefix := "Server error ("
  const ServerInfix := "): "
  const UnknownError := "Unknown error"

  /** The values stored under a header name, if any. */
  function HeaderValues(req: HttpRequest, name: string): Option<seq<string>> {
    var key := ToLower(name);
    if key in req.headers then Some(req.headers[key]) else None
  }

  /** `headers.set(name, value)`: the name now carries exactly `value`, other names keep theirs. */
  function SetHeader(headers: map<string, seq<string>>, name: string, value: string): (r: map<string, seq<string>>)
    ensures r.Keys == headers.Keys + {ToLower(name)}
    ensures r[ToLower(name)] == [value]
    ensures forall k :: k in headers && k != ToLower(name) ==> r[k] == headers[k]
  {
    headers[ToLower(name) := [value]]
  }

  lemma LowerHeaderNames()
    ensures ToLower("Content-Type") == ContentTypeName
    ensures ToLower("X-App-Version") == AppVersionName
  {
    assert ToLower("Content-Type") == ContentTypeName by {
      var s := "Content-Type";
      assert |ToLower(s)| == |ContentTypeName|;
      forall k | 0 <= k < |s| ensures ToLower(s)[k] == ContentTypeName[k] {
      }
    }
    assert ToLower("X-App-Version") == AppVersionName by {
      var s := "X-App-Version";
      assert |ToLower(s)| == |AppVersionName|;
      forall k | 0 <= k < |s| ensures ToLower(s)[k] == AppVersionName[k] {
      }
    }
  }

  /**
   * `req.clone({setHeaders: …})`: the same request with `Content-Type:
   * application/json` and `X-App-Version: 1.0.0`, replacing any value those
   * names had and leaving every other header alone.
   */
  function WithAppHeaders(req: HttpRequest): (r: HttpRequest)
    ensures r.verb == req.verb && r.url == req.url
    ensures HeaderValues(r, "Content-Type") == Some([ContentTypeValue])
    ensures HeaderValues(r, "X-App-Version") == Some([AppVersionValue])
    ensures r.headers.Keys == req.headers.Keys + {ContentTypeName, AppVersionName}
    ensures forall k :: k in req.headers && k != ContentTypeName && k != AppVersionName ==> r.headers[k] == req.headers[k]
  {
    LowerHeaderNames();
    var h := SetHeader(req.headers, "Content-Type", ContentTypeValue);
    req.(headers := SetHeader(h, "X-App-Version", AppVersionValue))
  }

  /** Adding the headers to a request that already carries them changes nothing. */
  lemma WithAppHeadersIdempotent(req: HttpRequest)
    ensures WithAppHeaders(WithAppHeaders(req)) == WithAppHeaders(req)
  {
    var once := WithAppHeaders(req);
    var twice := WithAppHeaders(once);
    assert twice.headers == once.headers;
  }

  /** `error.message || 'Unknown error'`: an empty message is replaced. */
  function MessageOrUnknown(message: string): (r: string)
    ensures r != []
    ensures message != [] ==> r == message
    ensures message == [] ==> r == UnknownError
  {
    if message == [] then UnknownError else message
  }

  /** The message for a status that has no fixed text of its own. */
  function ServerErrorMessage(status: int, message: string): (r: string)
    ensures ServerPrefix <= r
    ensures |r| > |ServerPrefix| + |ServerInfix| + |MessageOrUnknown(message)|
    ensures r[|r| - |MessageOrUnknown(message)|..] == MessageOrUnknown(message)
  {
    var tail := ServerInfix + MessageOrUnknown(message);
    var r := ServerPrefix + Decimal.IntToString(status) + tail;
    assert r == (ServerPrefix + Decimal.IntToString(status)) + tail;
    assert r[|r| - |tail|..] == tail;
    assert tail[|ServerInfix|..] == MessageOrUnknown(message);
    r
  }

  /** True for the statuses that have a fixed message of their own. */
  predicate HasFixedMessage(status: int) {
    status == 0 || status == 401 || status == 403 || status == 404 || status == 500
  }

  /** The user-facing text for an error response; `Placeholder` is never what it returns. */
  function ErrorMessage(e: HttpErrorResponse): (r: string)
    ensures r != Placeholder
  {
    if e.error.ErrorEvent? then
      assert (NetworkPrefix + e.error.message)[0] != Placeholder[0];
      NetworkPrefix + e.error.message
    else
      match e.status
      case 0 => ConnectionMessage
      case 401 => UnauthorizedMessage
      case 403 => ForbiddenMessage
      case 404 => NotFoundMessage
      case 500 => InternalErrorMessage
      case _ =>
        assert ServerErrorMessage(e.status, e.message)[0] != Placeholder[0];
        ServerErrorMessage(e.status, e.message)
  }

  /**
   * The interceptor as a whole: the next handler sees the request with the
   * fixed headers; a response passes through untouched, and every error comes
   * back as a failure carrying its mapped message, never as a success.
   */
  function Intercept<T>(req: HttpRequest, next: HttpRequest -> HttpResult<T>): (r: Outcome<T>)
    ensures r.Success? <==> next(WithAppHeaders(req)).Response?
    ensures r.Success? ==> r.value == next(WithAppHeaders(req)).body
    ensures r.Failure? ==> r.message == ErrorMessage(next(WithAppHeaders(req)).err)
  {
    match next(WithAppHeaders(req))
    case Response(body) => Success(body)
    case ErrorResponse(err) => Failure(ErrorMessage(err))
  }

  /** A client-side error gives the network message, whatever the status and the response message. */
  lemma ClientErrorIgnoresStatus(e: HttpErrorResponse)
    requires e.error.ErrorEvent?
    ensures ErrorMessage(e) == NetworkPrefix + e.error.message
    ensures forall status: int, message: string :: ErrorMessage(e.(status := status, message := message)) == ErrorMessage(e)
  {
  }

  /** The five fixed messages are pairwise distinct. */
  lemma FixedMessagesDistinct()
    ensures |{ConnectionMessage, UnauthorizedMessage, ForbiddenMessage, NotFoundMessage, InternalErrorMessage}| == 5
  {
  }

  lemma NetworkIsNotFixed(m: string)
    ensures !IsFixedMessage(NetworkPrefix + m)
  {
    var r := NetworkPrefix + m;
    assert r[0] == 'N';
    assert ConnectionMessage[0] == 'U' && UnauthorizedMessage[0] == 'U' && ForbiddenMessage[0] == 'A';
    assert NotFoundMessage[0] == 'R' && InternalErrorMessage[0] == 'S';
  }

  lemma ServerErrorIsNotFixed(status: int, message: string)
    ensures !IsFixedMessage(ServerErrorMessage(status, message))
  {
    var r := ServerErrorMessage(status, message);
    assert r[0] == ServerPrefix[0] == 'S' && r[12] == ServerPrefix[12] == ' ';
    assert InternalErrorMessage[12] == '.';
    assert ConnectionMessage[0] == 'U' && UnauthorizedMessage[0] == 'U' && ForbiddenMessage[0] == 'A';
    assert NotFoundMessage[0] == 'R';
  }

  predicate IsFixedMessage(m: string) {
    m == ConnectionMessage || m == UnauthorizedMessage || m == ForbiddenMessage
    || m == NotFoundMessage || m == InternalErrorMessage
  }

  /**
   * Each fixed message is produced by exactly one case: a response that is
   * not a client-side error and carries that status.
   */
  lemma FixedMessageIdentifiesStatus(e: HttpErrorResponse)
    ensures ErrorMessage(e) == ConnectionMessage <==> e.error.OtherPayload? && e.status == 0
    ensures ErrorMessage(e) == UnauthorizedMessage <==> e.error.OtherPayload? && e.status == 401
    ensures ErrorMessage(e) == ForbiddenMessage <==> e.error.OtherPayload? && e.status == 403
    ensures ErrorMessage(e) == NotFoundMessage <==> e.error.OtherPayload? && e.status == 404
    ensures ErrorMessage(e) == InternalErrorMessage <==> e.error.OtherPayload? && e.status == 500
  {
    if e.error.ErrorEvent? {
      NetworkIsNotFixed(e.error.message);
    } else if !HasFixedMessage(e.status) {
      ServerErrorIsNotFixed(e.status, e.message);
    }
  }

  /**
   * Any other status yields a message from which both the status and the
   * (defaulted) response message can be read back.
   */
  lemma ServerErrorMessageInjective(s1: int, m1: string, s2: int, m2: string)
    requires ServerErrorMessage(s1, m1) == ServerErrorMessage(s2, m2)
    ensures s1 == s2
    ensures MessageOrUnknown(m1) == MessageOrUnknown(m2)
  {
    var d1, d2 := Decimal.IntToString(s1), Decimal.IntToString(s2);
    var t1, t2 := ServerInfix + MessageOrUnknown(m1), ServerInfix + MessageOrUnknown(m2);
    ServerErrorMessageParts(s1, m1);
    ServerErrorMessageParts(s2, m2);
    CancelPrefix(ServerPrefix, d1 + t1, d2 + t2);
    NoParenInNumber(s1);
    NoParenInNumber(s2);
    SplitBeforeParen(d1, t1, d2, t2);
    Decimal.IntToStringInjective(s1, s2);
    CancelPrefix(ServerInfix, MessageOrUnknown(m1), MessageOrUnknown(m2));
  }

  lemma ServerErrorMessageParts(status: int, message: string)
    ensures ServerErrorMessage(status, message)
      == ServerPrefix + (Decimal.IntToString(status) + (ServerInfix + MessageOrUnknown(message)))
  {
  }

  lemma CancelPrefix(p: string, x: string, y: string)
    requires p + x == p + y
    ensures x == y
  {
    assert x == (p + x)[|p|..];
    assert y == (p + y)[|p|..];
  }

  predicate NoCloseParen(s: string) {
    forall k :: 0 <= k < |s| ==> s[k] != ')'
  }

  lemma NoParenInNumber(i: int)
    ensures NoCloseParen(Decimal.IntToString(i))
  {
    var s := Decimal.IntToString(i);
    if i < 0 {
      assert forall k :: 1 <= k < |s| ==> s[k] == s[1..][k - 1];
    }
  }

  /** Two ways of writing one string, each a paren-free part followed by a `)`, split at the same place. */
  lemma SplitBeforeParen(d1: string, t1: string, d2: string, t2: string)
    requires NoCloseParen(d1) && NoCloseParen(d2)
    requires t1 != [] && t1[0] == ')' && t2 != [] && t2[0] == ')'
    requires d1 + t1 == d2 + t2
    ensures d1 == d2 && t1 == t2
  {
    var s := d1 + t1;
    assert d1 == s[..|d1|] && d2 == s[..|d2|];
    assert t1 == s[|d1|..] && t2 == s[|d2|..];
  }

  /** The message for an unlisted status names that status and the response message. */
  lemma OtherStatusMessage(e: HttpErrorResponse)
    requires e.error.OtherPayload? && !HasFixedMessage(e.status)
    ensures ErrorMessage(e) == ServerPrefix + Decimal.IntToString(e.status) + ServerInfix + MessageOrUnknown(e.message)
    ensures e.message == [] ==> ErrorMessage(e) == ServerPrefix + Decimal.IntToString(e.status) + ServerInfix + UnknownError
  {
  }

}
