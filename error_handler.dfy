/**
 * `ErrorHandler`: the outermost middleware. It picks an error format from
 * the request's `Accept` line (the first listed media type found in a fixed
 * table, compared exactly after trimming: no q-values, parameters or
 * wildcards, unlike the negotiation of section 5.3.2 of RFC 7231), lets the
 * rest of the queue answer, and turns anything thrown into an error
 * response whose status comes from the exception and whose content type is
 * the chosen format's.
 */
module ErrorFormats {
  import opened Wrappers
  import opened PhpValues
  import opened HttpErrors
  import XmlErrors

  /** The Whoops handlers an error can be rendered by. */
  datatype Handler = PrettyPage | Html | Json | Xml

  /** `contentType()` of each handler; Whoops' pretty page is HTML too. */
  function ContentType(h: Handler): string {
    match h
    case PrettyPage => "text/html"
    case Html => "text/html"
    case Json => "application/json"
    case Xml => XmlErrors.ContentType
  }

  /** The HTML handler: the pretty page in debug mode, the plain page otherwise. */
  function HtmlFor(debug: bool): Handler {
    if debug then PrettyPage else Html
  }

  /** The `$handlers` table of `getWhoopsHandler`: media type to handler. */
  function Handlers(debug: bool): map<string, Handler> {
    map[
      "text/html" := HtmlFor(debug),
      "application/xhtml+xml" := HtmlFor(debug),
      "application/json" := Json,
      "text/json" := Json,
      "application/x-json" := Json,
      "application/xml" := Xml,
      "text/xml" := Xml
    ]
  }

  /** The table's media types have 8, 9, 15, 16, 18 or 21 characters; no other length is listed. */
  lemma NotListedByLength(format: string, debug: bool)
    requires |format| !in {8, 9, 15, 16, 18, 21}
    ensures format !in Handlers(debug)
  {
  }

  /** The handler when no listed media type is in the table. */
  function DefaultHandler(debug: bool): Handler {
    HtmlFor(debug)
  }

  /** The handler for a list of media types: the first one, once trimmed, found in `table`. */
  function SelectFrom(formats: seq<string>, table: map<string, Handler>, default: Handler): Handler {
    if formats == [] then default
    else if Trim(formats[0]) in table then table[Trim(formats[0])]
    else SelectFrom(formats[1..], table, default)
  }

  /** The handler for an `Accept` line, split on `,`. */
  function Selected(accept: string, debug: bool): Handler {
    SelectFrom(Explode(',', accept), Handlers(debug), DefaultHandler(debug))
  }

  /** The first item found in the table decides, whatever follows it. */
  lemma {:induction false} FirstListedWins(formats: seq<string>, table: map<string, Handler>, default: Handler, i: nat)
    requires i < |formats| && Trim(formats[i]) in table
    requires forall j :: 0 <= j < i ==> Trim(formats[j]) !in table
    ensures SelectFrom(formats, table, default) == table[Trim(formats[i])]
  {
    if i > 0 {
      assert Trim(formats[0]) !in table;
      FirstListedWins(formats[1..], table, default, i - 1);
    }
  }

  /** With no item in the table, the default handler is used. */
  lemma {:induction false} NoneListedFallsBack(formats: seq<string>, table: map<string, Handler>, default: Handler)
    requires forall j :: 0 <= j < |formats| ==> Trim(formats[j]) !in table
    ensures SelectFrom(formats, table, default) == default
  {
    if formats != [] {
      assert Trim(formats[0]) !in table;
      NoneListedFallsBack(formats[1..], table, default);
    }
  }

  /** What debug mode does to a handler: the plain HTML page becomes the pretty page. */
  function InDebug(h: Handler): Handler {
    if h == Html then PrettyPage else h
  }

  /** The two tables list the same media types; debug only swaps the HTML page. */
  lemma HandlersInDebug()
    ensures Handlers(true).Keys == Handlers(false).Keys
    ensures forall f :: f in Handlers(false) ==> Handlers(true)[f] == InDebug(Handlers(false)[f]) && Handlers(false)[f] != PrettyPage
    ensures DefaultHandler(true) == InDebug(DefaultHandler(false)) && DefaultHandler(false) != PrettyPage
  {
    forall f
      ensures f in Handlers(true) <==> f in Handlers(false)
    {
    }
    forall f | f in Handlers(false)
      ensures Handlers(true)[f] == InDebug(Handlers(false)[f]) && Handlers(false)[f] != PrettyPage
    {
      if f == "text/html" || f == "application/xhtml+xml" {
        assert Handlers(false)[f] == Html && Handlers(true)[f] == PrettyPage;
      } else if f == "application/xml" || f == "text/xml" {
        assert Handlers(false)[f] == Xml && Handlers(true)[f] == Xml;
      } else {
        assert Handlers(false)[f] == Json && Handlers(true)[f] == Json;
      }
    }
  }

  /** Selecting from a table with debug applied is selecting, then applying debug. */
  lemma {:induction false} SelectInDebug(formats: seq<string>, t: map<string, Handler>, t': map<string, Handler>, d: Handler, d': Handler)
    requires t'.Keys == t.Keys && d' == InDebug(d)
    requires forall f :: f in t ==> t'[f] == InDebug(t[f])
    ensures SelectFrom(formats, t', d') == InDebug(SelectFrom(formats, t, d))
  {
    if formats != [] {
      assert Trim(formats[0]) in t' <==> Trim(formats[0]) in t;
      SelectInDebug(formats[1..], t, t', d, d');
    }
  }

  /** Selecting never yields the pretty page outside debug mode. */
  lemma {:induction false} SelectNeverPretty(formats: seq<string>, t: map<string, Handler>, d: Handler)
    requires forall f :: f in t ==> t[f] != PrettyPage
    requires d != PrettyPage
    ensures SelectFrom(formats, t, d) != PrettyPage
  {
    if formats != [] {
      SelectNeverPretty(formats[1..], t, d);
    }
  }

  /**
   * Debug mode changes the choice only between the two HTML pages: the
   * same item is chosen, and JSON and XML stay as they are.
   */
  lemma DebugOnlySwapsHtml(accept: string)
    ensures Selected(accept, false) != PrettyPage
    ensures Selected(accept, true) == InDebug(Selected(accept, false))
  {
    HandlersInDebug();
    SelectInDebug(Explode(',', accept), Handlers(false), Handlers(true), DefaultHandler(false), DefaultHandler(true));
    SelectNeverPretty(Explode(',', accept), Handlers(false), DefaultHandler(false));
  }

  /** The content type of the error response does not depend on debug mode. */
  lemma ContentTypeIgnoresDebug(accept: string)
    ensures ContentType(Selected(accept, true)) == ContentType(Selected(accept, false))
  {
    DebugOnlySwapsHtml(accept);
  }

  /**
   * The loop of `getWhoopsHandler`: the items in order, each trimmed and
   * looked up in the table; the first found is returned, and the default
   * when none is.
   */
  method FirstListed(formats: seq<string>, table: map<string, Handler>, default: Handler) returns (h: Handler)
    ensures h == SelectFrom(formats, table, default)
  {
    var i := 0;
    while i < |formats|
      invariant 0 <= i <= |formats|
      invariant SelectFrom(formats[i..], table, default) == SelectFrom(formats, table, default)
    {
      var format := Trim(formats[i]);
      assert formats[i..][1..] == formats[i + 1..];
      if format in table {
        return table[format];
      }
      i := i + 1;
    }
    h := default;
  }

  /** `getWhoopsHandler($acceptHeaderLine)`: the line split on `,`, searched in the table for the debug setting. */
  method GetWhoopsHandler(accept: string, debug: bool) returns (h: Handler)
    ensures h == Selected(accept, debug)
  {
    var handlers := Handlers(debug);
    var formats := Explode(',', accept);
    h := FirstListed(formats, handlers, DefaultHandler(debug));
  }

  /** A response: its status and its headers in the order they were set. */
  datatype Response = Response(status: int, headers: seq<(string, string)>)

  /** What the rest of the queue did with the request: answered it, or threw. */
  datatype Outcome = Answered(response: Response) | Threw(error: Throwable)

  /** The status of the error response: an HttpException's own code, 500 for anything else. */
  function ErrorStatus(t: Throwable): (status: int)
    ensures t.HttpError? ==> status == t.e.code
    ensures t.OtherError? ==> status == 500
  {
    match t
    case HttpError(e) => e.code
    case OtherError(_) => 500
  }

  /** The middleware's setting. */
  datatype ErrorHandler = ErrorHandler(debug: bool)

  /**
   * `process($request, $handler)` as it was meant to work, and as the rest
   * of the model uses it: a response from the rest of the queue is passed
   * on untouched; a throwable becomes a response with its status and the
   * chosen handler's content type. The body Whoops writes is not part of
   * this model.
   */
  function Process(m: ErrorHandler, accept: string, inner: Outcome): (r: Response)
    ensures inner.Answered? ==> r == inner.response
    ensures inner.Threw? ==> r.status == ErrorStatus(inner.error)
    ensures inner.Threw? ==> r.headers == [("Content-Type", ContentType(Selected(accept, m.debug)))]
  {
    match inner
    case Answered(response) => response
    case Threw(t) => Response(ErrorStatus(t), [("Content-Type", ContentType(Selected(accept, m.debug)))])
  }

  /** An error `process` lets escape instead of answering. */
  datatype Uncaught = UndefinedMethod(name: string)

  /** Whether the chosen handler, while rendering `t`, calls `getErrors()`, which HttpException does not define. */
  predicate CallsGetErrors(h: Handler, t: Throwable, debug: bool) {
    (h == Json || h == Xml) && XmlErrors.Substituted(t, debug).HttpError?
  }

  /**
   * `process($request, $handler)` as written. The JSON and XML handlers
   * render an HttpException through `$exception->getErrors()`, and outside
   * debug they first turn every throwable into one; HttpException has no
   * such method, so inside the `catch` block an Error is raised and
   * escapes `process`. Otherwise the result is that of `Process`.
   */
  function ProcessAsWritten(m: ErrorHandler, accept: string, inner: Outcome): (r: Result<Response, Uncaught>)
    ensures inner.Answered? ==> r == Ok(inner.response)
    ensures r.Err? <==>
      inner.Threw? && (Selected(accept, m.debug) == Json || Selected(accept, m.debug) == Xml) &&
      (inner.error.HttpError? || !m.debug)
    ensures r.Ok? ==> r.value == Process(m, accept, inner)
  {
    match inner
    case Answered(response) => Ok(response)
    case Threw(t) =>
      if CallsGetErrors(Selected(accept, m.debug), t, m.debug) then Err(UndefinedMethod("getErrors"))
      else Ok(Process(m, accept, inner))
  }

  /**
   * The discrepancy: outside debug, a request accepting `text/xml` gets no
   * response at all when anything is thrown, while the intended `Process`
   * answers with an XML error document.
   */
  lemma XmlWithoutDebugEscapes(t: Throwable)
    ensures ProcessAsWritten(ErrorHandler(false), "text/xml", Threw(t)) == Err(UndefinedMethod("getErrors"))
    ensures Process(ErrorHandler(false), "text/xml", Threw(t)).headers == [("Content-Type", "application/xml")]
  {
    XmlListed(false);
    SingleTypeSelected("text/xml", false);
    assert ContentType(Xml) == "application/xml";
  }

  /** The HTML and pretty pages never call `getErrors()`: with them `process` answers as intended. */
  lemma PagesAlwaysAnswer(m: ErrorHandler, accept: string, inner: Outcome)
    requires Selected(accept, m.debug) == Html || Selected(accept, m.debug) == PrettyPage
    ensures ProcessAsWritten(m, accept, inner) == Ok(Process(m, accept, inner))
  {
  }

  /** An error response always carries a client or server error status. */
  lemma ErrorResponseIsError(m: ErrorHandler, accept: string, t: Throwable)
    requires t.HttpError? ==> Valid(t.e)
    ensures 400 <= Process(m, accept, Threw(t)).status <= 599
  {
    if t.HttpError? {
      CodesAreErrorStatuses(t.e.code);
    }
  }

  /**
   * The line `foo,foo/bar,bar,text/json,text/html`: the first listed type
   * in the table wins, so `text/json` is chosen over `text/html` and the
   * unknown types are skipped. (Whitespace after a comma makes no
   * difference: `TrimUnpadded`.)
   */
  lemma PreferredTypeExample(items: seq<string>)
    requires items == ["foo", "foo/bar", "bar", "text/json", "text/html"]
    ensures Selected(Implode(',', items), false) == Json
  {
    ExplodeImplode(',', items);
    SkippedItem(items[0]);
    SkippedItem(items[1]);
    SkippedItem(items[2]);
    TrimKeeps(items[3]);
    JsonListed();
    FirstListedWins(items, Handlers(false), DefaultHandler(false), 3);
  }

  /** An item of a length the table does not list is skipped. */
  lemma SkippedItem(s: string)
    requires s != [] && !IsTrimChar(s[0]) && !IsTrimChar(s[|s| - 1])
    requires |s| !in {8, 9, 15, 16, 18, 21}
    ensures Trim(s) !in Handlers(false)
  {
    TrimKeeps(s);
    NotListedByLength(s, false);
  }

  lemma JsonListed()
    ensures "text/json" in Handlers(false) && Handlers(false)["text/json"] == Json
  {
  }

  /** No media type of the table carries parameters. */
  lemma ListedTypesHaveNoParameters(debug: bool)
    ensures forall f :: f in Handlers(debug) ==> ';' !in f
  {
  }

  /** A line whose every item carries parameters (`;q=...`) matches nothing: the default page is used. */
  lemma ParametersPreventMatch(accept: string, debug: bool)
    requires forall i :: 0 <= i < |Explode(',', accept)| ==> ';' in Trim(Explode(',', accept)[i])
    ensures Selected(accept, debug) == DefaultHandler(debug)
  {
    ListedTypesHaveNoParameters(debug);
    NoneListedFallsBack(Explode(',', accept), Handlers(debug), DefaultHandler(debug));
  }

  lemma XmlListed(debug: bool)
    ensures "text/xml" in Handlers(debug) && Handlers(debug)["text/xml"] == Xml
  {
  }

  /** A line holding a single listed type selects that type's handler. */
  lemma SingleTypeSelected(format: string, debug: bool)
    requires ',' !in format && format in Handlers(debug)
    requires format != [] && !IsTrimChar(format[0]) && !IsTrimChar(format[|format| - 1])
    ensures Selected(format, debug) == Handlers(debug)[format]
  {
    ExplodeWithoutSeparator(',', format);
    TrimKeeps(format);
  }

  /**
   * In debug, a throwable other than an HttpException reaches the XML
   * handler unchanged, so a request accepting `text/xml` gets an XML error
   * response with status 500.
   */
  lemma XmlErrorExample(message: string)
    ensures ProcessAsWritten(ErrorHandler(true), "text/xml", Threw(OtherError(message))) ==
            Ok(Response(500, [("Content-Type", "application/xml")]))
  {
    XmlListed(true);
    SingleTypeSelected("text/xml", true);
    assert ContentType(Xml) == "application/xml";
  }

  /** A 404 thrown further down the queue becomes a 404 HTML page for a request accepting `text/html`. */
  lemma NotFoundExample(m: ErrorHandler)
    ensures ProcessAsWritten(m, "text/html", Threw(HttpError(New(404).value))).Ok?
    ensures ProcessAsWritten(m, "text/html", Threw(HttpError(New(404).value))).value.status == 404
  {
    NotFound();
    HtmlListed(m.debug);
    SingleTypeSelected("text/html", m.debug);
    var t := HttpError(New(404).value);
    PagesAlwaysAnswer(m, "text/html", Threw(t));
    assert ErrorStatus(t) == 404;
  }

  lemma HtmlListed(debug: bool)
    ensures "text/html" in Handlers(debug)
    ensures debug ==> Handlers(debug)["text/html"] == PrettyPage
    ensures !debug ==> Handlers(debug)["text/html"] == Html
  {
  }
}
