/**
 * `RequestHandler`: the queue of middlewares a request travels through.
 * Middlewares are piped with a priority, sorted by priority when the
 * handler runs, and dispatched one after the other: each call of `handle`
 * moves a cursor one entry on and hands the request to the middleware
 * found there, which either answers it or calls `handle` again.
 */
module Pipeline {
  import opened Wrappers

  /** The middlewares the application pipes, and any other one a caller adds. */
  datatype Middleware =
    | ExceptionHandler
    | TrailingSlash(trailingSlash: bool)
    | Authentication
    | PanelHandler
    | PageHandler
    | Custom(id: int)

  /** A queue entry: the middleware and its priority. */
  type Entry = (Middleware, int)

  /** What `handle` throws when the cursor runs past the last entry. */
  datatype QueueError = LogicException(message: string)

  const Exhausted := LogicException("Middleware queue exhausted")

  /** Entries in non-decreasing priority. */
  predicate SortedByPriority(s: seq<Entry>) {
    forall i, j :: 0 <= i < j < |s| ==> s[i].1 <= s[j].1
  }

  /** No two entries share a priority. */
  predicate DistinctPriorities(s: seq<Entry>) {
    forall i, j :: 0 <= i < j < |s| ==> s[i].1 != s[j].1
  }

  /** `e` placed before the first entry of `s` whose priority is not lower. */
  function Insert(e: Entry, s: seq<Entry>): (r: seq<Entry>)
    ensures multiset(r) == multiset(s) + multiset{e}
  {
    if s == [] || e.1 <= s[0].1 then [e] + s
    else
      assert s == [s[0]] + s[1..];
      [s[0]] + Insert(e, s[1..])
  }

  /** Inserting into a sorted queue keeps it sorted. */
  lemma {:induction false} InsertKeepsSorted(e: Entry, s: seq<Entry>)
    requires SortedByPriority(s)
    ensures SortedByPriority(Insert(e, s))
  {
    if s != [] && e.1 > s[0].1 {
      var rest := Insert(e, s[1..]);
      InsertKeepsSorted(e, s[1..]);
      forall j | 0 <= j < |rest|
        ensures s[0].1 <= rest[j].1
      {
        assert rest[j] in multiset(rest);
        assert rest[j] == e || rest[j] in multiset(s[1..]);
      }
    }
  }

  /** One ordering `usort` by priority may produce. */
  function SortByPriority(s: seq<Entry>): (r: seq<Entry>)
    ensures SortedByPriority(r)
    ensures multiset(r) == multiset(s)
  {
    if s == [] then []
    else
      assert s == [s[0]] + s[1..];
      InsertKeepsSorted(s[0], SortByPriority(s[1..]));
      Insert(s[0], SortByPriority(s[1..]))
  }

  /** An element of a sequence's multiset sits at some index. */
  lemma IndexOf(e: Entry, s: seq<Entry>) returns (k: nat)
    requires e in multiset(s)
    ensures k < |s| && s[k] == e
  {
    assert e in s;
    k :| k < |s| && s[k] == e;
  }

  /** Two sorted arrangements of the same distinct-priority entries start alike. */
  lemma SameFirst(a: seq<Entry>, b: seq<Entry>)
    requires SortedByPriority(a) && SortedByPriority(b)
    requires multiset(a) == multiset(b)
    requires DistinctPriorities(a)
    requires a != []
    ensures b != [] && a[0] == b[0]
  {
    var k := IndexOf(a[0], b);
    var k' := IndexOf(b[0], a);
    assert a[0].1 <= b[0].1 <= a[0].1;
    assert k' == 0;
  }

  /** Dropping equal first entries keeps the rest sorted, distinct and alike. */
  lemma Tails(a: seq<Entry>, b: seq<Entry>)
    requires SortedByPriority(a) && SortedByPriority(b)
    requires multiset(a) == multiset(b)
    requires DistinctPriorities(a)
    requires a != [] && b != [] && a[0] == b[0]
    ensures SortedByPriority(a[1..]) && SortedByPriority(b[1..])
    ensures DistinctPriorities(a[1..])
    ensures multiset(a[1..]) == multiset(b[1..])
  {
    assert a == [a[0]] + a[1..];
    assert b == [b[0]] + b[1..];
    assert multiset(a[1..]) == multiset(a) - multiset{a[0]};
    assert multiset(b[1..]) == multiset(b) - multiset{b[0]};
  }

  /**
   * Only equal priorities leave room for more than one order: two sorted
   * arrangements of the same entries with distinct priorities are the same.
   */
  lemma {:induction false} SortedOrderIsUnique(a: seq<Entry>, b: seq<Entry>)
    requires SortedByPriority(a) && SortedByPriority(b)
    requires multiset(a) == multiset(b)
    requires DistinctPriorities(a)
    ensures a == b
    decreases |a|
  {
    if a == [] {
      assert |multiset(b)| == 0;
    } else {
      SameFirst(a, b);
      Tails(a, b);
      SortedOrderIsUnique(a[1..], b[1..]);
      assert a == [a[0]] + a[1..];
      assert b == [b[0]] + b[1..];
    }
  }

  /**
   * Where the cursor stops when `handle` moves it to `next` and every
   * middleware for which `delegates` holds calls `handle` again: at the
   * first entry from `next` on that answers, or at the first position
   * without an entry.
   */
  function Stop(ms: seq<Entry>, next: int, delegates: Middleware -> bool): (s: int)
    ensures next <= s
    ensures 0 <= s < |ms| ==> !delegates(ms[s].0)
    decreases |ms| - next
  {
    if 0 <= next < |ms| && delegates(ms[next].0) then Stop(ms, next + 1, delegates) else next
  }

  /** Every entry the cursor moved past on its way to `Stop` passed the request on. */
  lemma {:induction false} StopSkipsDelegating(ms: seq<Entry>, next: int, delegates: Middleware -> bool, k: int)
    requires next <= k < Stop(ms, next, delegates)
    ensures 0 <= k < |ms| && delegates(ms[k].0)
    decreases |ms| - next
  {
    if k != next {
      StopSkipsDelegating(ms, next + 1, delegates, k);
    }
  }

  /** What the chain of `handle` calls ends in once the cursor stopped at `s`. */
  function Answer(ms: seq<Entry>, s: int): (r: Result<Middleware, QueueError>)
    ensures r.Ok? <==> 0 <= s < |ms|
    ensures r.Ok? ==> r.value == ms[s].0
    ensures r.Err? ==> r.error == Exhausted
  {
    if 0 <= s < |ms| then Ok(ms[s].0) else Err(Exhausted)
  }

  class RequestHandler {
    /** `$middlewares`: the entries in the order they were piped, or sorted once the handler ran. */
    var middlewares: seq<Entry>
    /** `$currentMiddleware`: the index of the entry last dispatched. */
    var currentMiddleware: int

    constructor()
      ensures middlewares == [] && currentMiddleware == -1
    {
      middlewares := [];
      currentMiddleware := -1;
    }

    /** `getMiddlewares()`: the middlewares, without their priorities, in stored order. */
    function GetMiddlewares(): (r: seq<Middleware>)
      reads this
      ensures |r| == |middlewares|
      ensures forall i :: 0 <= i < |r| ==> r[i] == middlewares[i].0
    {
      seq(|middlewares|, i requires 0 <= i < |middlewares| reads this => middlewares[i].0)
    }

    /** `pipe($middleware, $priority)`: the entry goes last; the priority is 0 unless given. */
    method Pipe(m: Middleware, priority: int := 0)
      modifies this
      ensures middlewares == old(middlewares) + [(m, priority)]
      ensures currentMiddleware == old(currentMiddleware)
    {
      middlewares := middlewares + [(m, priority)];
    }

    /** `sortMiddlewares()`: the same entries, in non-decreasing priority. */
    method SortMiddlewares()
      modifies this
      ensures SortedByPriority(middlewares)
      ensures multiset(middlewares) == multiset(old(middlewares))
      ensures currentMiddleware == old(currentMiddleware)
    {
      middlewares := SortByPriority(middlewares);
    }

    /**
     * `handle($request)`: the cursor moves one entry on; with no entry
     * there, LogicException (the cursor stays moved); otherwise the
     * middleware there processes the request, calling `handle` again when
     * `delegates` says it passes the request on. The result is the
     * middleware that answered.
     */
    method Handle(delegates: Middleware -> bool) returns (r: Result<Middleware, QueueError>)
      modifies this
      ensures middlewares == old(middlewares)
      ensures currentMiddleware == Stop(middlewares, old(currentMiddleware) + 1, delegates)
      ensures r == Answer(middlewares, currentMiddleware)
      decreases |middlewares| - currentMiddleware
    {
      currentMiddleware := currentMiddleware + 1;
      if !(0 <= currentMiddleware < |middlewares|) {
        return Err(Exhausted);
      }
      var m := middlewares[currentMiddleware].0;
      if delegates(m) {
        r := Handle(delegates);
      } else {
        r := Ok(m);
      }
    }

    /** `run($request)`: sort, then handle; the cursor carries on from wherever it was. */
    method Run(delegates: Middleware -> bool) returns (r: Result<Middleware, QueueError>)
      modifies this
      ensures SortedByPriority(middlewares)
      ensures multiset(middlewares) == multiset(old(middlewares))
      ensures currentMiddleware == Stop(middlewares, old(currentMiddleware) + 1, delegates)
      ensures r == Answer(middlewares, currentMiddleware)
    {
      SortMiddlewares();
      r := Handle(delegates);
    }
  }

  /**
   * From a fresh cursor, the request visits the entries in queue order: the
   * answer comes from the first entry that does not delegate, and every
   * entry before it has passed the request on.
   */
  lemma FreshRunVisitsInOrder(ms: seq<Entry>, delegates: Middleware -> bool, i: nat)
    requires i < |ms| && !delegates(ms[i].0)
    requires forall k :: 0 <= k < i ==> delegates(ms[k].0)
    ensures Stop(ms, 0, delegates) == i
    ensures Answer(ms, Stop(ms, 0, delegates)) == Ok(ms[i].0)
  {
    if Stop(ms, 0, delegates) > i {
      StopSkipsDelegating(ms, 0, delegates, i);
    }
  }

  /** When every entry delegates, the run ends in LogicException. */
  lemma AllDelegatingExhausts(ms: seq<Entry>, delegates: Middleware -> bool)
    requires forall k :: 0 <= k < |ms| ==> delegates(ms[k].0)
    ensures Answer(ms, Stop(ms, 0, delegates)) == Err(Exhausted)
  {
  }

  /** The only sorted arrangement of the entries piped as 3, 1, 2. */
  lemma SortedThreeEntries(ms: seq<Entry>)
    requires SortedByPriority(ms)
    requires multiset(ms) == multiset([(Custom(3), 3), (Custom(1), 1), (Custom(2), 2)])
    ensures ms == [(Custom(1), 1), (Custom(2), 2), (Custom(3), 3)]
  {
    var sorted := [(Custom(1), 1), (Custom(2), 2), (Custom(3), 3)];
    assert multiset([(Custom(3), 3), (Custom(1), 1), (Custom(2), 2)]) == multiset(sorted);
    SortedOrderIsUnique(sorted, ms);
  }

  /** Piping 3, 1, 2 keeps that order; sorting gives 1, 2, 3. */
  method SortingExample() returns (before: seq<Middleware>, after: seq<Middleware>)
    ensures before == [Custom(3), Custom(1), Custom(2)]
    ensures after == [Custom(1), Custom(2), Custom(3)]
  {
    var h := new RequestHandler();
    h.Pipe(Custom(3), 3);
    h.Pipe(Custom(1), 1);
    h.Pipe(Custom(2), 2);
    var piped := h.middlewares;
    assert piped == [(Custom(3), 3), (Custom(1), 1), (Custom(2), 2)];
    before := h.GetMiddlewares();
    assert before == [before[0], before[1], before[2]];
    h.SortMiddlewares();
    var sorted := h.middlewares;
    SortedThreeEntries(sorted);
    after := h.GetMiddlewares();
    assert after == [after[0], after[1], after[2]];
  }

  /** A single middleware that passes the request on exhausts the queue. */
  method ExhaustedExample() returns (r: Result<Middleware, QueueError>)
    ensures r == Err(LogicException("Middleware queue exhausted"))
  {
    var delegates := (m: Middleware) => m == Custom(1);
    var h := new RequestHandler();
    h.Pipe(Custom(1));
    r := h.Run(delegates);
    assert |multiset(h.middlewares)| == 1;
    assert h.middlewares[0] in multiset(h.middlewares);
    AllDelegatingExhausts(h.middlewares, delegates);
  }

  /**
   * A middleware that passes the request on, then one that answers, both at
   * priority 0: whichever order the sort leaves them in, the second answers.
   */
  method TraversalExample() returns (r: Result<Middleware, QueueError>)
    ensures r == Ok(Custom(2))
  {
    var delegates := (m: Middleware) => m == Custom(1);
    var h := new RequestHandler();
    h.Pipe(Custom(1));
    h.Pipe(Custom(2));
    var piped := h.middlewares;
    r := h.Run(delegates);
    var ms := h.middlewares;
    assert |multiset(ms)| == 2;
    assert ms == [ms[0], ms[1]];
    assert multiset{ms[0], ms[1]} == multiset{(Custom(1), 0), (Custom(2), 0)};
    if ms[0] == (Custom(2), 0) {
      FreshRunVisitsInOrder(ms, delegates, 0);
    } else {
      assert ms[0] == (Custom(1), 0) && ms[1] == (Custom(2), 0);
      FreshRunVisitsInOrder(ms, delegates, 1);
    }
  }
}
