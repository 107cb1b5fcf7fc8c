/**
 * `Application`: builds the configuration from the defaults and the
 * caller's overrides, sets up the middleware queue, and on each request
 * adds the handlers for either the admin panel or the public pages,
 * depending on the first segment of the request's path.
 */
module App {
  import opened Wrappers
  import opened PhpValues
  import opened Pipeline
  import TrailingSlashes

  /** The defaults the configuration given to the constructor is merged into. */
  const Defaults: Entries<Value> := [
    (StrKey("debug"), Bool(false)),
    (StrKey("trailingSlash"), Bool(false)),
    (StrKey("panel"), Str("admin")),
    (StrKey("auth.trials"), Int(6)),
    (StrKey("auth.timeout"), Int(3600)),
    (StrKey("templates.path"), Null),
    (StrKey("schemes.path"), Null),
    (StrKey("users.path"), Null),
    (StrKey("media.path"), Null),
    (StrKey("pages.path"), Null),
    (StrKey("pages.index"), Str("home")),
    (StrKey("session.durationNormal"), Int(7200)),
    (StrKey("session.durationLong"), Int(1209600)),
    (StrKey("session.timeout"), Int(1800)),
    (StrKey("session.cookieName"), Str("fs"))
  ]

  /** The configuration a construction leaves behind: the defaults, overridden by the given array. */
  function Configured(overrides: Entries<Value>): Value {
    Arr(ArrayMerge(Defaults, overrides))
  }

  /**
   * `Application::config($key)`: the whole configuration without a key;
   * with one, its entry (a numeric string addresses an integer key), and
   * null when the entry or the configuration itself is missing.
   */
  function ConfigLookup(config: Value, key: Option<string>): Value {
    match key
    case None => config
    case Some(k) => if config.Arr? then LookupOrNull(config.entries, StringKey(k)) else Null
  }

  /** The defaults list each setting once. */
  lemma DefaultsHaveUniqueKeys()
    ensures UniqueKeys(Defaults)
  {
  }

  /** A setting the overrides give takes their value; any other keeps its default (null when there is none). */
  lemma OverridesWin(overrides: Entries<Value>, k: string)
    requires UniqueKeys(overrides) && !IsCanonicalIntString(k)
    ensures ConfigLookup(Configured(overrides), Some(k)) ==
            if StrKey(k) in Keys(overrides) then LookupOrNull(overrides, StrKey(k)) else LookupOrNull(Defaults, StrKey(k))
  {
    DefaultsHaveUniqueKeys();
    ArrayMergeOverrides(Defaults, overrides, k);
  }

  /**
   * The path's first segment: slashes trimmed from both ends, then
   * everything before the next `/` (`explode("/", ..., 2)[0]`, which is the
   * first piece whatever the limit).
   */
  function FirstSegment(path: string): (segment: string)
    ensures '/' !in segment
  {
    Explode('/', TrimLeft(TrimRight(path, TrailingSlashes.Slash), TrailingSlashes.Slash))[0]
  }

  /** `rtrim($s, "/")` keeps everything up to the last character that is not a slash. */
  lemma TrimRightKeepsHead(head: string, rest: string) returns (kept: string)
    requires head != [] && head[|head| - 1] != '/'
    ensures TrimRight(head + rest, TrailingSlashes.Slash) == head + kept && kept <= rest
  {
    var s := head + rest;
    var right := TrimRight(s, TrailingSlashes.Slash);
    assert s[|head| - 1] == head[|head| - 1];
    assert |right| >= |head|;
    kept := right[|head|..];
    assert right == s[..|right|];
    assert right == head + kept;
  }

  /** Trimming the slashes around a path leaves its first segment in front, followed by nothing or a `/`. */
  lemma TrimmedPath(pad: string, segment: string, rest: string) returns (kept: string)
    requires forall i :: 0 <= i < |pad| ==> pad[i] == '/'
    requires segment != [] && '/' !in segment
    requires rest == [] || rest[0] == '/'
    ensures TrimLeft(TrimRight(pad + segment + rest, TrailingSlashes.Slash), TrailingSlashes.Slash) == segment + kept
    ensures kept == [] || kept[0] == '/'
  {
    var head := pad + segment;
    assert head[|head| - 1] == segment[|segment| - 1];
    assert segment[|segment| - 1] in segment;
    kept := TrimRightKeepsHead(head, rest);
    assert pad + segment + rest == head + rest;
    assert head + kept == pad + (segment + kept);
    TrimLeftPadded(pad, segment + kept, TrailingSlashes.Slash);
    assert (segment + kept)[0] == segment[0] && segment[0] in segment;
    assert kept == [] || kept[0] == rest[0];
  }

  /** A segment followed by nothing or by a `/` is the first piece of its explosion. */
  lemma FirstPiece(segment: string, kept: string)
    requires '/' !in segment
    requires kept == [] || kept[0] == '/'
    ensures Explode('/', segment + kept)[0] == segment
  {
    if kept == [] {
      assert segment + kept == segment;
      ExplodeWithoutSeparator('/', segment);
    } else {
      assert segment + kept == segment + ['/'] + kept[1..];
      ExplodeAfterPiece('/', segment, kept[1..]);
    }
  }

  /**
   * Whatever slashes lead the path, its first segment is the text up to the
   * next `/` or the end: "/admin", "//admin/" and "/admin/pages/x" all
   * start with the segment "admin".
   */
  lemma FirstSegmentOf(pad: string, segment: string, rest: string)
    requires forall i :: 0 <= i < |pad| ==> pad[i] == '/'
    requires segment != [] && '/' !in segment
    requires rest == [] || rest[0] == '/'
    ensures FirstSegment(pad + segment + rest) == segment
  {
    var kept := TrimmedPath(pad, segment, rest);
    FirstPiece(segment, kept);
  }

  /**
   * The entries `run` adds for a request: the authentication middleware at
   * 50 and the panel's handler at 100 when the first segment is (strictly)
   * the configured panel name, the page handler at 100 otherwise.
   */
  function Routes(panel: Value, path: string): (added: seq<Entry>)
    ensures panel == Str(FirstSegment(path)) ==> added == [(Authentication, 50), (PanelHandler, 100)]
    ensures panel != Str(FirstSegment(path)) ==> added == [(PageHandler, 100)]
    ensures PanelHandler in MiddlewaresOf(added) <==> panel == Str(FirstSegment(path))
  {
    if panel == Str(FirstSegment(path)) then
      assert MiddlewaresOf([(Authentication, 50), (PanelHandler, 100)]) == [Authentication, PanelHandler];
      [(Authentication, 50), (PanelHandler, 100)]
    else
      assert MiddlewaresOf([(PageHandler, 100)]) == [PageHandler];
      [(PageHandler, 100)]
  }

  /** The middlewares of some entries, without their priorities. */
  function MiddlewaresOf(es: seq<Entry>): (ms: seq<Middleware>)
    ensures |ms| == |es| && forall i :: 0 <= i < |es| ==> ms[i] == es[i].0
  {
    seq(|es|, i requires 0 <= i < |es| => es[i].0)
  }

  /** The queue a construction sets up: the error middleware first, then the trailing-slash one. */
  const InitialQueue: seq<Entry> := [(ExceptionHandler, -100), (TrailingSlash(TrailingSlashes.Default.trailingSlash), -50)]

  /** Where the class-wide (static) `$config` lives; null until an application is built. */
  class ConfigStore {
    var config: Value

    constructor()
      ensures config == Null
    {
      config := Null;
    }
  }

  class Application {
    /** The shared `$config`. */
    const store: ConfigStore
    /** `$requestHandler`. */
    const requestHandler: RequestHandler

    /**
     * `new Application($config)`: the configuration becomes the defaults
     * merged with `$config`, replacing whatever an earlier application left
     * there, and the queue holds the error middleware at -100 and the
     * trailing-slash middleware at -50.
     */
    constructor(store: ConfigStore, overrides: Entries<Value>)
      modifies store
      ensures this.store == store && store.config == Configured(overrides)
      ensures fresh(requestHandler)
      ensures requestHandler.middlewares == InitialQueue && requestHandler.currentMiddleware == -1
    {
      this.store := store;
      store.config := Configured(overrides);
      var handler := new RequestHandler();
      handler.Pipe(ExceptionHandler, -100);
      handler.Pipe(TrailingSlash(TrailingSlashes.Default.trailingSlash), -50);
      requestHandler := handler;
    }

    /** `Application::config($key)`. */
    function Config(key: Option<string>): (v: Value)
      reads store
      ensures key.None? ==> v == store.config
      ensures key.Some? && store.config.Arr? ==> v == LookupOrNull(store.config.entries, StringKey(key.value))
      ensures key.Some? && !store.config.Arr? ==> v == Null
    {
      ConfigLookup(store.config, key)
    }

    /**
     * The first half of `run($request)` for a request with path `path`:
     * the routes the first segment selects are piped.
     */
    method Route(path: string)
      modifies requestHandler
      ensures requestHandler.middlewares ==
                old(requestHandler.middlewares) + Routes(ConfigLookup(store.config, Some("panel")), path)
      ensures requestHandler.currentMiddleware == old(requestHandler.currentMiddleware)
    {
      if ConfigLookup(store.config, Some("panel")) != Str(FirstSegment(path)) {
        requestHandler.Pipe(PageHandler, 100);
      } else {
        requestHandler.Pipe(Authentication, 50);
        requestHandler.Pipe(PanelHandler, 100);
      }
    }

    /**
     * `run($request)`: the routes are piped, then the queue runs.
     * `delegates` says which middlewares pass the request on; the result
     * is the middleware that answered, or LogicException when none did.
     */
    method Run(path: string, delegates: Middleware -> bool) returns (r: Result<Middleware, QueueError>)
      modifies requestHandler
      ensures multiset(requestHandler.middlewares) ==
                multiset(old(requestHandler.middlewares) + Routes(ConfigLookup(store.config, Some("panel")), path))
      ensures SortedByPriority(requestHandler.middlewares)
      ensures requestHandler.currentMiddleware ==
                Stop(requestHandler.middlewares, old(requestHandler.currentMiddleware) + 1, delegates)
      ensures r == Answer(requestHandler.middlewares, requestHandler.currentMiddleware)
    {
      Route(path);
      r := requestHandler.Run(delegates);
    }
  }

  /** The head of a sorted queue is the entry whose priority is lower than every other's. */
  lemma SortedHeadIsLowest(ms: seq<Entry>, piped: seq<Entry>, e: Entry)
    requires SortedByPriority(ms) && multiset(ms) == multiset(piped)
    requires e in piped && forall x :: x in piped && x != e ==> e.1 < x.1
    ensures ms != [] && ms[0] == e
  {
    assert e in multiset(ms);
    assert ms[0] in multiset(piped);
    var k :| 0 <= k < |ms| && ms[k] == e;
    assert ms[0].1 <= ms[k].1;
  }

  /** Sorting brings in no middleware that was not piped. */
  lemma NeverPiped(ms: seq<Entry>, piped: seq<Entry>, m: Middleware)
    requires multiset(ms) == multiset(piped)
    requires forall i :: 0 <= i < |piped| ==> piped[i].0 != m
    ensures m !in MiddlewaresOf(ms)
  {
    forall i | 0 <= i < |ms| ensures ms[i].0 != m {
      assert ms[i] in multiset(piped);
      var j :| 0 <= j < |piped| && piped[j] == ms[i];
    }
  }

  /** `new Application(["foo" => "bar"])`: the new setting is read back whole and by key; the defaults stay. */
  method ConfigurationExample() returns (foo: Value, panel: Value)
    ensures foo == Str("bar") && panel == Str("admin")
  {
    var store := new ConfigStore();
    var app := new Application(store, [(StrKey("foo"), Str("bar"))]);
    OverridesWin([(StrKey("foo"), Str("bar"))], "foo");
    OverridesWin([(StrKey("foo"), Str("bar"))], "panel");
    foo := app.Config(Some("foo"));
    panel := app.Config(Some("panel"));
  }

  /** A second application replaces the configuration the first one reads. */
  method SharedConfigurationExample() returns (first: Value)
    ensures first == Str("shop")
  {
    var store := new ConfigStore();
    var a := new Application(store, [(StrKey("panel"), Str("backend"))]);
    var b := new Application(store, [(StrKey("panel"), Str("shop"))]);
    OverridesWin([(StrKey("panel"), Str("shop"))], "panel");
    first := a.Config(Some("panel"));
  }

  /** The panel is called "admin" unless the configuration says otherwise. */
  lemma DefaultPanel()
    ensures ConfigLookup(Configured([]), Some("panel")) == Str("admin")
  {
    OverridesWin([], "panel");
  }

  /** The first segment of `/admin` is "admin". */
  lemma AdminSegment()
    ensures FirstSegment("/admin") == "admin"
  {
    FirstSegmentOf("/", "admin", "");
    assert "/" + "admin" + "" == "/admin";
  }

  /** On a default configuration a request for `/admin` is routed to the panel. */
  lemma AdminIsRoutedToPanel()
    ensures Routes(ConfigLookup(Configured([]), Some("panel")), "/admin") == [(Authentication, 50), (PanelHandler, 100)]
  {
    DefaultPanel();
    AdminSegment();
  }

  /** On a default configuration a request whose first segment is anything else is routed to the pages. */
  lemma OtherSegmentIsRoutedToPages(segment: string, rest: string)
    requires segment != [] && '/' !in segment && segment != "admin"
    requires rest == [] || rest[0] == '/'
    ensures Routes(ConfigLookup(Configured([]), Some("panel")), "/" + segment + rest) == [(PageHandler, 100)]
  {
    DefaultPanel();
    FirstSegmentOf("/", segment, rest);
  }

  /** The entries of a default application after a middleware was piped at -200 and a panel request arrived. */
  function PanelPiped(answering: Middleware): seq<Entry> {
    InitialQueue + [(answering, -200)] + [(Authentication, 50), (PanelHandler, 100)]
  }

  /** Once that queue is sorted, the -200 middleware comes first. */
  lemma PanelQueueHead(ms: seq<Entry>, answering: Middleware)
    requires SortedByPriority(ms) && multiset(ms) == multiset(PanelPiped(answering))
    ensures ms != [] && ms[0] == (answering, -200)
  {
    var piped := PanelPiped(answering);
    assert piped == [(ExceptionHandler, -100), (TrailingSlash(false), -50), (answering, -200),
                     (Authentication, 50), (PanelHandler, 100)];
    SortedHeadIsLowest(ms, piped, (answering, -200));
  }

  /** The sorted queue holds the panel's handlers and not the page handler. */
  lemma PanelQueueMembers(ms: seq<Entry>, answering: Middleware)
    requires answering != PageHandler
    requires multiset(ms) == multiset(PanelPiped(answering))
    ensures PanelHandler in MiddlewaresOf(ms) && Authentication in MiddlewaresOf(ms)
    ensures PageHandler !in MiddlewaresOf(ms)
  {
    var piped := PanelPiped(answering);
    assert piped == [(ExceptionHandler, -100), (TrailingSlash(false), -50), (answering, -200),
                     (Authentication, 50), (PanelHandler, 100)];
    assert (PanelHandler, 100) in multiset(ms);
    assert (Authentication, 50) in multiset(ms);
    NeverPiped(ms, piped, PageHandler);
  }

  /**
   * A request for `/admin` on a default application with a middleware at
   * -200 that answers: the panel's handlers are queued and the -200
   * middleware answers.
   */
  method PanelRoutingExample(answering: Middleware, delegates: Middleware -> bool)
    returns (queued: seq<Middleware>, r: Result<Middleware, QueueError>)
    requires !delegates(answering) && answering != PageHandler
    ensures PanelHandler in queued && Authentication in queued && PageHandler !in queued
    ensures r == Ok(answering)
  {
    var store := new ConfigStore();
    var app := new Application(store, []);
    app.requestHandler.Pipe(answering, -200);
    assert app.requestHandler.middlewares == InitialQueue + [(answering, -200)];
    AdminIsRoutedToPanel();
    r := app.Run("/admin", delegates);
    queued := app.requestHandler.GetMiddlewares();
    assert queued == MiddlewaresOf(app.requestHandler.middlewares);
    PanelQueueHead(app.requestHandler.middlewares, answering);
    PanelQueueMembers(app.requestHandler.middlewares, answering);
  }
}
