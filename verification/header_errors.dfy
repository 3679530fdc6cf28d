/**
 * `createError` and the eight error classes the header package defines
 * with it. A call validates its code and message and returns an error
 * class; constructing that class yields an error whose `message`, `name`,
 * `code` and `status` follow fixed formats.
 */
module HeaderErrors {
  import opened Wrappers
  import opened Js

  /** The `Base` class the created class extends. */
  datatype BaseClass = TypeErrorClass | ErrorClass

  /** An error class returned by `createError`: everything its constructor closes over. */
  datatype HeaderErrorClass = HeaderErrorClass(code: string, message: string, status: int, base: BaseClass)

  /** An instance of such a class. */
  datatype HeaderError = HeaderError(message: string, name: string, code: string, status: int, base: BaseClass)

  const DefaultStatus: int := 500

  /** `createError(code, message, status = 500, Base = TypeError)`. */
  function CreateError(code: string, message: string, status: int := DefaultStatus,
                       base: BaseClass := TypeErrorClass): (r: Result<HeaderErrorClass, Thrown>)
    ensures r.Ok? <==> code != "" && message != ""
    ensures code == "" ==> r == Err(Error("Error code must not be empty."))
    ensures code != "" && message == "" ==> r == Err(Error("Error message must not be empty."))
    ensures r.Ok? ==> r.value.code == code && r.value.message == message
    ensures r.Ok? ==> r.value.status == status && r.value.base == base
  {
    if code == "" then Err(Error("Error code must not be empty."))
    else if message == "" then Err(Error("Error message must not be empty."))
    else Ok(HeaderErrorClass(code, message, status, base))
  }

  /**
   * `new C()` for a class `C` returned by `createError`: the message is the
   * code, ": " and the class's message; the name wraps the code in
   * "HeaderError [" and "]".
   */
  function Construct(c: HeaderErrorClass): (e: HeaderError)
    ensures e.code == c.code && e.status == c.status && e.base == c.base
    ensures |e.message| == |c.code| + 2 + |c.message|
    ensures e.message[..|c.code|] == c.code && e.message[|c.code|..|c.code| + 2] == ": "
    ensures e.message[|c.code| + 2..] == c.message
    ensures |e.name| == |c.code| + 14
    ensures e.name[..13] == "HeaderError [" && e.name[13..|e.name| - 1] == c.code && e.name[|e.name| - 1] == ']'
  {
    HeaderError(c.code + ": " + c.message, "HeaderError [" + c.code + "]", c.code, c.status, c.base)
  }

  /**
   * What a thrown error tells its catcher: the code, message, status and
   * base class passed to `createError`, its message prefixed by the code and
   * ": ", and its name wrapping the code.
   */
  lemma ConstructedError(code: string, message: string, status: int, base: BaseClass)
    requires CreateError(code, message, status, base).Ok?
    ensures var e := Construct(CreateError(code, message, status, base).value);
            && e.code == code && e.status == status && e.base == base
            && e.message == code + ": " + message
            && e.name == "HeaderError [" + code + "]"
  {
  }

  /** Without an explicit status the error carries 500. */
  lemma DefaultStatusIs500(code: string, message: string)
    requires code != "" && message != ""
    ensures Construct(CreateError(code, message).value).status == 500
    ensures Construct(CreateError(code, message).value).base == TypeErrorClass
  {
  }

  /** The code can be read back from the error's name, so distinct codes give distinct names. */
  function CodeFromName(name: string): (r: Option<string>)
  {
    var prefix := "HeaderError [";
    if |name| >= |prefix| + 1 && name[..|prefix|] == prefix && name[|name| - 1] == ']'
    then Some(name[|prefix|..|name| - 1])
    else None
  }

  lemma NameRoundTrip(c: HeaderErrorClass)
    ensures CodeFromName(Construct(c).name) == Some(c.code)
  {
    var n := Construct(c).name;
    var prefix := "HeaderError [";
    assert n[..|prefix|] == prefix;
    assert n[|prefix|..|n| - 1] == c.code;
  }

  /** The eight predefined error kinds. */
  datatype Kind =
    | InvalidHeaderName
    | InvalidHeaderValue
    | InvalidCookieHeader
    | InvalidSetCookieHeader
    | InvalidMediaType
    | InvalidAccept
    | InvalidAcceptEncoding
    | InvalidCacheControlHeader

  function CodeOf(k: Kind): string
  {
    match k
    case InvalidHeaderName => "ERR_INVALID_HEADER_NAME"
    case InvalidHeaderValue => "ERR_INVALID_HEADER_VALUE"
    case InvalidCookieHeader => "ERR_INVALID_COOKIE_HEADER"
    case InvalidSetCookieHeader => "ERR_INVALID_SET_COOKIE_HEADER"
    case InvalidMediaType => "ERR_INVALID_MEDIA_TYPE"
    case InvalidAccept => "ERR_INVALID_ACCEPT"
    case InvalidAcceptEncoding => "ERR_INVALID_ACCEPT_ENCODING"
    case InvalidCacheControlHeader => "ERR_CACHE_CONTROL"
  }

  function MessageOf(k: Kind): string
  {
    match k
    case InvalidHeaderName => "Invalid header name."
    case InvalidHeaderValue => "Invalid header value."
    case InvalidCookieHeader => "Invalid Cookie header."
    case InvalidSetCookieHeader => "Invalid Set-Cookie header."
    case InvalidMediaType => "Invalid media type."
    case InvalidAccept => "Invalid accept."
    case InvalidAcceptEncoding => "Invalid accept encoding."
    case InvalidCacheControlHeader => "Invalid Cache-Control header."
  }

  /** The class each predefined kind is bound to: `createError(code, message)`, no status given. */
  function Predefined(k: Kind): (c: HeaderErrorClass)
    ensures CreateError(CodeOf(k), MessageOf(k)) == Ok(c)
  {
    CreateError(CodeOf(k), MessageOf(k)).value
  }

  /** Which kind a code belongs to. */
  function KindOfCode(code: string): Option<Kind>
  {
    if code == "ERR_INVALID_HEADER_NAME" then Some(InvalidHeaderName)
    else if code == "ERR_INVALID_HEADER_VALUE" then Some(InvalidHeaderValue)
    else if code == "ERR_INVALID_COOKIE_HEADER" then Some(InvalidCookieHeader)
    else if code == "ERR_INVALID_SET_COOKIE_HEADER" then Some(InvalidSetCookieHeader)
    else if code == "ERR_INVALID_MEDIA_TYPE" then Some(InvalidMediaType)
    else if code == "ERR_INVALID_ACCEPT" then Some(InvalidAccept)
    else if code == "ERR_INVALID_ACCEPT_ENCODING" then Some(InvalidAcceptEncoding)
    else if code == "ERR_CACHE_CONTROL" then Some(InvalidCacheControlHeader)
    else None
  }

  /**
   * Every predefined kind is created successfully, carries status 500 (none
   * of them passes a status) and extends `TypeError`, and its code
   * identifies it.
   */
  lemma PredefinedKinds(k: Kind)
    ensures Predefined(k).status == 500
    ensures Predefined(k).base == TypeErrorClass
    ensures Predefined(k).code == CodeOf(k) && Predefined(k).message == MessageOf(k)
    ensures KindOfCode(Predefined(k).code) == Some(k)
  {
  }

  /** The predefined kinds have pairwise distinct codes. */
  lemma PredefinedCodesDistinct(k1: Kind, k2: Kind)
    requires k1 != k2
    ensures Predefined(k1).code != Predefined(k2).code
  {
    PredefinedKinds(k1);
    PredefinedKinds(k2);
  }
}
