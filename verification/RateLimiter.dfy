/**
The per-client request limiter.  The source calls it a fixed window, but its pruned queue of admission times behaves
as an exact sliding log: the methods are proved against the full history of admissions, which is never pruned.
*/
module RateLimiter {
  import opened Options

  // ---------------------------------------------------------------- the full history

  /** The length of the window, in seconds. */
  type Span = r: real | r > 0.0 witness 1.0

  predicate Sorted(log: seq<real>) {
    forall i, k :: 0 <= i < k < |log| ==> log[i] <= log[k]
  }

  /** How many entries lie in the window of the given length that ends at `at`, its start excluded. */
  function Within(log: seq<real>, at: real, window: Span): nat {
    if log == [] then 0
    else
      var t := log[|log| - 1];
      Within(log[..|log| - 1], at, window) + if at - window < t <= at then 1 else 0
  }

  /** The client's admissions after one more request: it is admitted when its window is not full. */
  function Admit(log: seq<real>, now: real, limit: nat, window: Span): seq<real> {
    if Within(log, now, window) < limit then log + [now] else log
  }

  /** The number of leading entries that are at most `bound`. */
  function UpTo(log: seq<real>, bound: real): (n: nat)
    requires Sorted(log)
    ensures n <= |log|
    ensures forall i :: 0 <= i < |log| ==> (log[i] <= bound <==> i < n)
  {
    if log == [] then 0
    else if log[|log| - 1] <= bound then |log|
    else UpTo(log[..|log| - 1], bound)
  }

  /** In a sorted history the entries of a window are consecutive. */
  lemma {:induction false} WithinIsARun(log: seq<real>, at: real, window: Span)
    requires Sorted(log)
    ensures Within(log, at, window) == UpTo(log, at) - UpTo(log, at - window)
  {
    if log != [] {
      WithinIsARun(log[..|log| - 1], at, window);
    }
  }

  /** Any `limit + 1` consecutive admissions span at least the window. */
  predicate Spaced(log: seq<real>, limit: nat, window: Span) {
    forall i :: 0 <= i && i + limit < |log| ==> log[i + limit] - log[i] >= window
  }

  predicate LogOk(log: seq<real>, latest: real, limit: nat, window: Span) {
    Sorted(log) && Spaced(log, limit, window) && (forall i :: 0 <= i < |log| ==> log[i] <= latest)
  }

  lemma AdmitKeepsLog(log: seq<real>, latest: real, now: real, limit: nat, window: Span)
    requires LogOk(log, latest, limit, window) && latest <= now && limit > 0
    ensures LogOk(Admit(log, now, limit, window), now, limit, window)
  {
    WithinIsARun(log, now, window);
    if Within(log, now, window) < limit && |log| >= limit {
      assert UpTo(log, now) == |log|;
      assert log[|log| - limit] <= now - window;
    }
  }

  function Admissions(log: seq<real>, requests: seq<real>, limit: nat, window: Span): seq<real>
    decreases |requests|
  {
    if requests == [] then log else Admissions(Admit(log, requests[0], limit, window), requests[1..], limit, window)
  }

  lemma {:induction false} OneMoreRequest(log: seq<real>, requests: seq<real>, now: real, limit: nat, window: Span)
    ensures Admissions(log, requests + [now], limit, window)
            == Admit(Admissions(log, requests, limit, window), now, limit, window)
    decreases |requests|
  {
    if requests == [] {
      assert requests + [now] == [now] && [now][1..] == [];
    } else {
      assert (requests + [now])[1..] == requests[1..] + [now];
      OneMoreRequest(Admit(log, requests[0], limit, window), requests[1..], now, limit, window);
    }
  }

  /** Whatever requests a client sends, its admissions stay spaced. */
  lemma {:induction false} AdmissionsStaySpaced(
      log: seq<real>, latest: real, requests: seq<real>, limit: nat, window: Span)
    requires LogOk(log, latest, limit, window) && limit > 0
    requires Sorted(requests) && (requests != [] ==> latest <= requests[0])
    ensures LogOk(Admissions(log, requests, limit, window), if requests == [] then latest else requests[|requests| - 1],
                  limit, window)
    decreases |requests|
  {
    if requests != [] {
      AdmitKeepsLog(log, latest, requests[0], limit, window);
      AdmissionsStaySpaced(Admit(log, requests[0], limit, window), requests[0], requests[1..], limit, window);
    }
  }

  /** A history that stays spaced never fills a window beyond the limit. */
  lemma SpacedFitsWindow(log: seq<real>, latest: real, limit: nat, window: Span, at: real)
    requires LogOk(log, latest, limit, window)
    ensures Within(log, at, window) <= limit
  {
    WithinIsARun(log, at, window);
    var a, b := UpTo(log, at - window), UpTo(log, at);
    assert a + limit < |log| ==> log[a + limit] - log[a] >= window;
    assert a < |log| ==> log[a] > at - window;
    assert a + limit < |log| ==> (log[a + limit] <= at <==> a + limit < b);
  }

  /** No window of time, wherever it starts, holds more admissions than the limit. */
  lemma NoWindowExceedsTheLimit(requests: seq<real>, limit: nat, window: Span, at: real)
    requires Sorted(requests) && limit > 0
    ensures Within(Admissions([], requests, limit, window), at, window) <= limit
  {
    var log := Admissions([], requests, limit, window);
    var latest := if requests == [] then 0.0 else requests[0];
    AdmissionsStaySpaced([], latest, requests, limit, window);
    SpacedFitsWindow(log, if requests == [] then latest else requests[|requests| - 1], limit, window, at);
  }

  // ---------------------------------------------------------------- Retry-After

  function Ceil(x: real): int {
    -((-x).Floor)
  }

  function Max(a: int, b: int): int {
    if a > b then a else b
  }

  lemma BelowCeil(x: real, n: int)
    ensures n < Ceil(x) <==> (n as real) < x
  {
    var c := Ceil(x);
    if n < c {
      assert n as real <= (c - 1) as real;
    } else {
      assert c as real <= n as real;
    }
  }

  /** How full the window is after a number of seconds without requests. */
  function Later(log: seq<real>, now: real, window: Span, wait: int): nat {
    Within(log, now + wait as real, window)
  }

  /** `wait` is the least whole number of seconds after which a client that sends nothing meanwhile is admitted. */
  ghost predicate LeastWait(log: seq<real>, now: real, limit: nat, window: Span, wait: int) {
    && wait >= 0
    && Later(log, now, window, wait) < limit
    && forall earlier :: 0 <= earlier < wait ==> Later(log, now, window, earlier) >= limit
  }

  lemma QuietWithin(log: seq<real>, now: real, window: Span, wait: int)
    requires Sorted(log) && (forall i :: 0 <= i < |log| ==> log[i] <= now) && wait >= 0
    ensures Later(log, now, window, wait) == |log| - UpTo(log, now + wait as real - window)
  {
    WithinIsARun(log, now + wait as real, window);
    assert UpTo(log, now + wait as real) == |log|;
  }

  /** Entry `k` has left the window after `wait` seconds exactly when fewer than the entries from it on are left. */
  lemma LeavesWhen(log: seq<real>, now: real, window: Span, wait: int, k: nat)
    requires Sorted(log) && (forall i :: 0 <= i < |log| ==> log[i] <= now) && wait >= 0 && k < |log|
    ensures Later(log, now, window, wait) < |log| - k <==> log[k] + window - now <= wait as real
  {
    QuietWithin(log, now, window, wait);
  }

  lemma RetryAfterIsExact(log: seq<real>, now: real, limit: nat, window: Span, wait: int)
    requires Sorted(log) && (forall i :: 0 <= i < |log| ==> log[i] <= now) && limit > 0
    requires |log| >= limit && Within(log, now, window) == limit
    requires wait == Ceil(log[|log| - limit] + window - now)
    ensures LeastWait(log, now, limit, window, wait) && wait >= 1
  {
    var k := |log| - limit;
    var x := log[k] + window - now;
    QuietWithin(log, now, window, 0);
    BelowCeil(x, 0);
    BelowCeil(x, wait);
    hide Ceil, Later, UpTo;
    LeavesWhen(log, now, window, wait, k);
    forall earlier | 0 <= earlier < wait
      ensures Later(log, now, window, earlier) >= limit
    {
      BelowCeil(x, earlier);
      LeavesWhen(log, now, window, earlier, k);
    }
  }

  // ---------------------------------------------------------------- the middleware

  type Client = string

  datatype Reply =
    | Exempt
    | Admitted(remaining: int, resetAfter: int)
    | TooMany(retryAfter: int)

  const EXEMPT_PATHS: set<string> := {"/docs", "/openapi.json", "/redoc"}

  /** The reply to a limited request, told from the client's full history of admissions. */
  ghost predicate Answers(reply: Reply, log: seq<real>, now: real, limit: nat, window: Span) {
    var used := Within(log, now, window);
    && used <= limit
    && (used < limit ==>
          // The reset is the least wait after which the oldest admission in the window, this one included, has left.
          && reply.Admitted? && reply.remaining == limit - used - 1
          && LeastWait(log + [now], now, used + 1, window, reply.resetAfter) && reply.resetAfter >= 1)
    && (used == limit ==>
          reply.TooMany? && LeastWait(log, now, limit, window, reply.retryAfter) && reply.retryAfter >= 1)
  }

  /** The queue is what is left of the history once entries that no window can reach any more are dropped. */
  predicate IsPruned(queue: seq<real>, log: seq<real>, latest: real, window: Span) {
    && |queue| <= |log|
    && queue == log[|log| - |queue|..]
    && forall i :: 0 <= i < |log| - |queue| ==> log[i] <= latest - window
  }

  /** With nothing prunable left, the queue is the window. */
  lemma QueueIsWindow(queue: seq<real>, log: seq<real>, now: real, window: Span)
    requires Sorted(log) && (forall i :: 0 <= i < |log| ==> log[i] <= now)
    requires IsPruned(queue, log, now, window) && (queue != [] ==> queue[0] > now - window)
    ensures Within(log, now, window) == |queue|
    ensures forall i :: 0 <= i < |queue| ==> log[|log| - |queue| + i] == queue[i]
  {
    WithinIsARun(log, now, window);
    assert UpTo(log, now) == |log|;
    var k := |log| - |queue|;
    assert k < |log| ==> log[k] == queue[0];
    assert k > 0 ==> log[k - 1] <= now - window;
    assert UpTo(log, now - window) == k;
  }

  lemma StaysPruned(queue: seq<real>, log: seq<real>, latest: real, now: real, limit: nat, window: Span)
    requires LogOk(log, latest, limit, window) && IsPruned(queue, log, latest, window) && latest <= now
    ensures LogOk(log, now, limit, window) && IsPruned(queue, log, now, window)
  {
  }

  lemma DropOldest(queue: seq<real>, log: seq<real>, now: real, window: Span)
    requires IsPruned(queue, log, now, window) && queue != [] && queue[0] <= now - window
    ensures IsPruned(queue[1..], log, now, window)
  {
  }

  /** The wait until the oldest entry of the window leaves. */
  lemma WindowWait(queue: seq<real>, log: seq<real>, now: real, limit: nat, window: Span)
    requires LogOk(log, now, limit, window) && IsPruned(queue, log, now, window) && queue != []
    requires queue[0] > now - window
    ensures var wait := Ceil(queue[0] + window - now); wait >= 1 && LeastWait(log, now, |queue|, window, wait)
  {
    QueueIsWindow(queue, log, now, window);
    assert log[|log| - |queue|] == queue[0];
    RetryAfterIsExact(log, now, |queue|, window, Ceil(queue[0] + window - now));
  }

  /** A full queue: the request is refused, and the wait is exact. */
  lemma FullQueue(queue: seq<real>, log: seq<real>, now: real, limit: nat, window: Span)
    requires LogOk(log, now, limit, window) && IsPruned(queue, log, now, window) && |queue| == limit > 0
    requires queue[0] > now - window
    ensures Admit(log, now, limit, window) == log
    ensures Answers(TooMany(Max(1, Ceil(queue[0] + window - now))), log, now, limit, window)
  {
    QueueIsWindow(queue, log, now, window);
    WindowWait(queue, log, now, limit, window);
  }

  lemma LongerQueue(queue: seq<real>, log: seq<real>, now: real, window: Span)
    requires IsPruned(queue, log, now, window)
    ensures IsPruned(queue + [now], log + [now], now, window)
  {
  }

  /** Room in the queue: the request is admitted, and the reset is exact. */
  lemma RoomInQueue(queue: seq<real>, log: seq<real>, now: real, limit: nat, window: Span)
    requires LogOk(log, now, limit, window) && IsPruned(queue, log, now, window) && |queue| < limit
    requires queue != [] ==> queue[0] > now - window
    ensures Admit(log, now, limit, window) == log + [now]
    ensures IsPruned(queue + [now], log + [now], now, window)
    ensures LogOk(log + [now], now, limit, window)
    ensures Answers(Admitted(limit - |queue| - 1, Max(1, Ceil((queue + [now])[0] + window - now))), log, now, limit, window)
  {
    QueueIsWindow(queue, log, now, window);
    AdmitKeepsLog(log, now, now, limit, window);
    LongerQueue(queue, log, now, window);
    var queue1, log1 := queue + [now], log + [now];
    assert Admit(log, now, limit, window) == log1;
    assert |queue1| == |queue| + 1;
    hide LogOk, Sorted, Spaced, Within, LeastWait, IsPruned, Ceil;
    assert queue1[0] == if queue == [] then now else queue[0];
    WindowWait(queue1, log1, now, limit, window);
  }

  /** One dispatched request and its answer. */
  datatype Served = Served(client: Client, path: string, at: real, reply: Reply)

  /** When the client's requests were admitted. */
  function AdmittedTimes(served: seq<Served>, client: Client): seq<real> {
    if served == [] then []
    else
      var last := served[|served| - 1];
      AdmittedTimes(served[..|served| - 1], client)
      + if last.client == client && last.reply.Admitted? then [last.at] else []
  }

  /** When the client sent requests that are limited. */
  function LimitedTimes(served: seq<Served>, client: Client): seq<real> {
    if served == [] then []
    else
      var last := served[|served| - 1];
      LimitedTimes(served[..|served| - 1], client)
      + if last.client == client && !last.reply.Exempt? then [last.at] else []
  }

  lemma OneMoreServed(served: seq<Served>, s: Served, client: Client)
    ensures AdmittedTimes(served + [s], client)
            == AdmittedTimes(served, client) + if s.client == client && s.reply.Admitted? then [s.at] else []
    ensures LimitedTimes(served + [s], client)
            == LimitedTimes(served, client) + if s.client == client && !s.reply.Exempt? then [s.at] else []
  {
    assert (served + [s])[..|served|] == served;
  }

  class RateLimitMiddleware {
    const enabled: bool
    const limit: nat
    const window: Span
    var requestTimes: map<Client, seq<real>>
    /** Every request so far with its answer, and the last reading of the clock. */
    ghost var served: seq<Served>
    ghost var latest: real

    /** The constructor raises `ValueError` unless both settings are positive. */
    static method Build(enabled: bool, requestLimit: int, windowSeconds: int, ghost started: real)
      returns (m: Option<RateLimitMiddleware>)
      ensures m.Some? <==> requestLimit > 0 && windowSeconds > 0
      ensures m.Some? ==>
                && m.value.Valid() && fresh(m.value) && m.value.served == [] && m.value.latest == started
                && m.value.enabled == enabled && m.value.limit == requestLimit && m.value.window == windowSeconds as real
    {
      if requestLimit <= 0 || windowSeconds <= 0 {
        return None;
      }
      var built := new RateLimitMiddleware(enabled, requestLimit, windowSeconds as real, started);
      m := Some(built);
    }

    constructor (enabled: bool, limit: nat, window: Span, ghost started: real)
      requires limit > 0
      ensures Valid() && served == [] && latest == started
      ensures this.enabled == enabled && this.limit == limit && this.window == window
    {
      this.enabled, this.limit, this.window := enabled, limit, window;
      requestTimes, served, latest := map[], [], started;
    }

    function Queue(client: Client): seq<real>
      reads this
    {
      if client in requestTimes then requestTimes[client] else []
    }

    ghost function Log(client: Client): seq<real>
      reads this
    {
      AdmittedTimes(served, client)
    }

    ghost predicate Valid()
      reads this
    {
      && limit > 0
      && forall client :: ClientOk(client)
    }

    ghost predicate ClientOk(client: Client)
      reads this
    {
      && LogOk(Log(client), latest, limit, window)
      && IsPruned(Queue(client), Log(client), latest, window)
      && |Queue(client)| <= limit
      && Log(client) == Admissions([], LimitedTimes(served, client), limit, window)
    }

    /** The paths on which nothing is limited. */
    predicate IsExempt(path: string) {
      || !enabled
      || "/health" <= path
      || path in EXEMPT_PATHS
    }

    /**
    `dispatch` up to the call of the route.  The clock has not gone back since the last request.
    */
    method Dispatch(client: Client, path: string, now: real) returns (reply: Reply)
      requires Valid() && latest <= now
      modifies this
      ensures Valid() && latest == (if reply.Exempt? then old(latest) else now)
      ensures served == old(served) + [Served(client, path, now, reply)]
      ensures reply.Exempt? <==>
                || !enabled
                || (|path| >= 7 && path[..7] == "/health")
                || path == "/docs" || path == "/openapi.json" || path == "/redoc"
      ensures !reply.Exempt? ==> Answers(reply, old(Log(client)), now, limit, window)
      ensures forall other :: Log(other) ==
                if other == client && !reply.Exempt? then Admit(old(Log(client)), now, limit, window) else old(Log(other))
    {
      PathsOf(path);
      hide IsExempt, Admit, Answers, AdmittedTimes;
      if IsExempt(path) {
        RecordExempt(client, path, now);
        return Exempt;
      }
      reply := Limit(client, path, now);
    }

    /** The critical section. */
    method Limit(client: Client, path: string, now: real) returns (reply: Reply)
      requires Valid() && latest <= now
      modifies this
      ensures Valid() && latest == now && served == old(served) + [Served(client, path, now, reply)] && !reply.Exempt?
      ensures Answers(reply, old(Log(client)), now, limit, window)
      ensures forall other :: Log(other) ==
                if other == client then Admit(old(Log(client)), now, limit, window) else old(Log(other))
    {
      hide LogOk, Sorted, Spaced, IsPruned, Admit, Ceil, Answers, AdmittedTimes;
      ghost var log := Log(client);
      var queue := Queue(client);
      assert ClientOk(client);
      AdmitKeepsLog(log, latest, now, limit, window);
      StaysPruned(queue, log, latest, now, limit, window);
      while queue != [] && queue[0] <= now - window
        invariant |queue| <= limit && IsPruned(queue, log, now, window)
        modifies {}
        decreases |queue|
      {
        DropOldest(queue, log, now, window);
        queue := queue[1..];
      }
      if |queue| >= limit {
        FullQueue(queue, log, now, limit, window);
        reply := TooMany(Max(1, Ceil(queue[0] + window - now)));
        assert log == log + [];
        Record(client, path, queue, log, now, reply);
      } else {
        RoomInQueue(queue, log, now, limit, window);
        queue := queue + [now];
        reply := Admitted(limit - |queue|, Max(1, Ceil(queue[0] + window - now)));
        Record(client, path, queue, log + [now], now, reply);
      }
    }

    lemma PathsOf(path: string)
      ensures IsExempt(path) <==>
                || !enabled
                || (|path| >= 7 && path[..7] == "/health")
                || path == "/docs" || path == "/openapi.json" || path == "/redoc"
    {
      assert "/health" <= path <==> |path| >= 7 && path[..7] == "/health";
    }

    method Record(
        client: Client, path: string, queue: seq<real>, ghost log: seq<real>, ghost now: real, ghost reply: Reply)
      requires Valid() && latest <= now && !reply.Exempt?
      requires log == Log(client) + if reply.Admitted? then [now] else []
      requires log == Admit(Log(client), now, limit, window)
      requires LogOk(log, now, limit, window) && IsPruned(queue, log, now, window) && |queue| <= limit
      modifies this
      ensures Valid() && latest == now && served == old(served) + [Served(client, path, now, reply)]
      ensures forall other :: Log(other) == if other == client then log else old(Log(other))
    {
      hide AdmittedTimes, LimitedTimes, Admit, LogOk, Sorted, Spaced, IsPruned;
      ghost var s := Served(client, path, now, reply);
      StayOk(now);
      requestTimes := requestTimes[client := queue];
      served := served + [s];
      latest := now;
      forall other
        ensures Log(other) == if other == client then log else old(Log(other))
        ensures ClientOk(other)
      {
        OneMoreServed(old(served), s, other);
        OneMoreRequest([], LimitedTimes(old(served), other), now, limit, window);
        assert old(ClientOk(other));
        if other != client {
          assert LimitedTimes(served, other) == LimitedTimes(old(served), other);
          assert Queue(other) == old(Queue(other)) && Log(other) == old(Log(other));
        }
      }
    }

    /** Time passes, and every client's queue stays good. */
    lemma StayOk(now: real)
      requires Valid() && latest <= now
      ensures forall client ::
                && LogOk(Log(client), now, limit, window) && IsPruned(Queue(client), Log(client), now, window)
                && |Queue(client)| <= limit
    {
      hide AdmittedTimes, LogOk, Sorted, Spaced, IsPruned;
      forall client
        ensures LogOk(Log(client), now, limit, window) && IsPruned(Queue(client), Log(client), now, window)
        ensures |Queue(client)| <= limit
      {
        assert ClientOk(client);
        StaysPruned(Queue(client), Log(client), latest, now, limit, window);
      }
    }

    /** An exempt request leaves the queues alone. */
    ghost method RecordExempt(client: Client, path: string, now: real)
      requires Valid() && latest <= now
      modifies this`served
      ensures Valid() && latest == old(latest) && served == old(served) + [Served(client, path, now, Exempt)]
      ensures forall other :: Log(other) == old(Log(other))
    {
      hide AdmittedTimes, LimitedTimes, LogOk, Sorted, Spaced, IsPruned;
      ghost var s := Served(client, path, now, Exempt);
      served := served + [s];
      forall other
        ensures Log(other) == old(Log(other)) && ClientOk(other)
      {
        assert old(ClientOk(other));
        OneMoreServed(old(served), s, other);
        assert LimitedTimes(served, other) == LimitedTimes(old(served), other);
        assert Queue(other) == old(Queue(other));
      }
    }

    /**
    The queues do what the rule on the full history does: of the requests of a client that are limited, those are
    admitted that find fewer than `limit` admissions in their window.
    */
    lemma AdmissionsFollowTheRule(client: Client)
      requires Valid()
      ensures AdmittedTimes(served, client) == Admissions([], LimitedTimes(served, client), limit, window)
    {
      assert ClientOk(client);
    }

    /**
    Whatever requests have been dispatched, in no window of time were more requests of a client admitted than the limit.
    */
    lemma AdmissionsFitEveryWindow(client: Client, at: real)
      requires Valid()
      ensures Within(AdmittedTimes(served, client), at, window) <= limit
    {
      assert ClientOk(client);
      SpacedFitsWindow(Log(client), latest, limit, window, at);
    }
  }
}
