/**
 * `HttpException`: an exception that carries an HTTP error status and the
 * reason phrase that goes with it. Only the codes of a fixed table can be
 * raised; any other code is itself an error.
 */
module HttpErrors {
  import opened Wrappers
  import opened PhpValues

  /**
   * The reason phrases, by status code: the client and server errors of
   * section 6 of RFC 7231 and its companions, plus the non-standard 418,
   * 444, 499 and 599.
   */
  const Phrases: map<int, string> := map[
    400 := "Bad Request",
    401 := "Unauthorized",
    402 := "Payment Required",
    403 := "Forbidden",
    404 := "Not Found",
    405 := "Method Not Allowed",
    406 := "Not Acceptable",
    407 := "Proxy Authentication Required",
    408 := "Request Time-out",
    409 := "Conflict",
    410 := "Gone",
    411 := "Length Required",
    412 := "Precondition Failed",
    413 := "Request Entity Too Large",
    414 := "Request-URI Too Large",
    415 := "Unsupported Media Type",
    416 := "Requested range not satisfiable",
    417 := "Expectation Failed",
    418 := "I'm a teapot",
    421 := "Misdirected Request",
    422 := "Unprocessable Entity",
    423 := "Locked",
    424 := "Failed Dependency",
    425 := "Unordered Collection",
    426 := "Upgrade Required",
    428 := "Precondition Required",
    429 := "Too Many Requests",
    431 := "Request Header Fields Too Large",
    444 := "Connection Closed Without Response",
    451 := "Unavailable For Legal Reasons",
    499 := "Client Closed Request",
    500 := "Internal Server Error",
    501 := "Not Implemented",
    502 := "Bad Gateway",
    503 := "Service Unavailable",
    504 := "Gateway Time-out",
    505 := "HTTP Version not supported",
    506 := "Variant Also Negotiates",
    507 := "Insufficient Storage",
    508 := "Loop Detected",
    510 := "Not Extended",
    511 := "Network Authentication Required",
    599 := "Network Connect Timeout Error"
  ]

  /** An `HttpException`: its code and its message. */
  datatype HttpException = HttpException(code: int, message: string)

  /** The `RuntimeException` raised for a code the table does not know. */
  datatype InvalidCode = RuntimeException(message: string)

  /** Anything a request handler can throw: an HTTP error or any other throwable. */
  datatype Throwable = HttpError(e: HttpException) | OtherError(message: string)

  /** The exceptions that can exist: a code of the table with its own phrase. */
  predicate Valid(e: HttpException) {
    e.code in Phrases && e.message == Phrases[e.code]
  }

  /**
   * `new HttpException($code)`, 500 when no code is given: the exception
   * for a known code, and otherwise a RuntimeException naming the code.
   */
  function New(code: int := 500): (r: Result<HttpException, InvalidCode>)
    ensures r.Ok? <==> code in Phrases
    ensures r.Ok? ==> r.value.code == code && Valid(r.value)
    ensures r.Err? ==> r.error.message == "Http error not valid (" + IntToString(code) + ")"
  {
    if code in Phrases then Ok(HttpException(code, Phrases[code]))
    else Err(RuntimeException("Http error not valid (" + IntToString(code) + ")"))
  }

  /** `getParams()`: the array `["code" => code, "message" => message]`. */
  function GetParams(e: HttpException): (p: Entries<Value>)
    ensures Keys(p) == [StrKey("code"), StrKey("message")]
    ensures Lookup(p, StrKey("code")) == Some(Int(e.code))
    ensures Lookup(p, StrKey("message")) == Some(Str(e.message))
  {
    [(StrKey("code"), Int(e.code)), (StrKey("message"), Str(e.message))]
  }

  /** The exception `new HttpException($params["code"])` raises, if the code is a known integer. */
  function FromParams(p: Entries<Value>): (r: Option<HttpException>)
    ensures r.Some? ==> Valid(r.value)
  {
    match LookupOrNull(p, StrKey("code"))
    case Int(code) => if New(code).Ok? then Some(New(code).value) else None
    case _ => None
  }

  /** The parameters of an exception are enough to raise it again. */
  lemma ParamsRoundTrip(e: HttpException)
    requires Valid(e)
    ensures FromParams(GetParams(e)) == Some(e)
  {
  }

  /** Every status an HttpException can carry is a client or server error. */
  lemma CodesAreErrorStatuses(code: int)
    requires New(code).Ok?
    ensures 400 <= code <= 599
  {
  }

  /** The exception `new HttpException()` makes. */
  const InternalServerError := HttpException(500, "Internal Server Error")

  /** The default exception is a 500 "Internal Server Error". */
  lemma DefaultIsInternalServerError()
    ensures New() == Ok(InternalServerError)
  {
  }

  lemma NotFound()
    ensures New(404) == Ok(HttpException(404, "Not Found"))
  {
  }

  /** 419 is not in the table, so it cannot be raised. */
  lemma UnknownCodeIsRejected()
    ensures New(419).Err?
  {
    assert 419 !in Phrases;
  }
}
