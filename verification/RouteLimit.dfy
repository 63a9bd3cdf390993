/**
  The HTTP rate limiter of `pkg/api/middleware/ratelimit.go`: a fixed window per address in one table for all requests
  and in one table for each route limit, and the choice of the route limit that applies to a request.

  The first theorems are about one table. The last ones carry them over to the middleware, where a request counts in a
  route's table only after it has passed the global one.
 */
module RouteLimit {
  import opened Wrappers
  import opened FixedWindow

  type Ip = string

  datatype Visitor = Visitor(count: nat, resetAt: int)
  datatype Limit = Limit(maxRequests: int, window: nat)

  type Visitors = map<Ip, Visitor>

  predicate Allows(visitors: Visitors, ip: Ip, limit: Limit, now: int) {
    ip !in visitors || now > visitors[ip].resetAt || visitors[ip].count < limit.maxRequests
  }

  function Allowed(visitors: Visitors, ip: Ip, limit: Limit, now: int): Visitors {
    if ip !in visitors || now > visitors[ip].resetAt then visitors[ip := Visitor(1, now + limit.window)]
    else if visitors[ip].count >= limit.maxRequests then visitors
    else visitors[ip := visitors[ip].(count := visitors[ip].count + 1)]
  }

  function Cleaned(visitors: Visitors, now: int): Visitors {
    map ip | ip in visitors && now <= visitors[ip].resetAt :: visitors[ip]
  }

  // ---------------------------------------------------------------- histories

  datatype Event = Request(ip: Ip, at: int) | CleanupCall(at: int)

  predicate Monotone(events: seq<Event>) {
    forall i, j :: 0 <= i < j < |events| ==> events[i].at <= events[j].at
  }

  function Run(events: seq<Event>, limit: Limit): Visitors {
    if events == [] then map[]
    else
      var visitors := Run(events[..|events| - 1], limit);
      match events[|events| - 1]
      case Request(ip, at) => Allowed(visitors, ip, limit, at)
      case CleanupCall(at) => Cleaned(visitors, at)
  }

  function AllowedTimes(events: seq<Event>, limit: Limit, ip: Ip): seq<int> {
    if events == [] then []
    else
      var n := |events| - 1;
      var before := AllowedTimes(events[..n], limit, ip);
      match events[n]
      case CleanupCall(_) => before
      case Request(i, at) => if i == ip && Allows(Run(events[..n], limit), i, limit, at) then before + [at] else before
  }

  /** The number of requests one window admits: the first one is never refused. */
  function PerWindow(limit: Limit): nat {
    if limit.maxRequests >= 1 then limit.maxRequests else 1
  }

  function ViewOf(visitors: Visitors, ip: Ip): View {
    if ip in visitors then Open(visitors[ip].resetAt, visitors[ip].count) else Absent
  }

  ghost predicate Counting(visitors: Visitors) {
    forall ip :: ip in visitors ==> visitors[ip].count >= 1
  }

  lemma {:induction false} RequestView(visitors: Visitors, i: Ip, limit: Limit, at: int, ip: Ip)
    requires Counting(visitors)
    ensures Counting(Allowed(visitors, i, limit, at))
    ensures i == ip ==> (Allows(visitors, i, limit, at) <==> Rolled(ViewOf(visitors, ip), at, limit.window).n < PerWindow(limit))
    ensures ViewOf(Allowed(visitors, i, limit, at), ip)
         == if i != ip then ViewOf(visitors, ip)
            else
              var v := Rolled(ViewOf(visitors, ip), at, limit.window);
              if Allows(visitors, i, limit, at) then v.(n := v.n + 1) else v
  {
  }

  lemma {:induction false} CleanView(visitors: Visitors, at: int, ip: Ip)
    ensures ViewOf(Cleaned(visitors, at), ip)
         == if Expired(ViewOf(visitors, ip), at) then Absent else ViewOf(visitors, ip)
    ensures Counting(visitors) ==> Counting(Cleaned(visitors, at))
  {
  }

  lemma {:induction false} RolledOpen(v: View, at: int, window: nat)
    ensures Rolled(v, at, window).Open? && at <= Rolled(v, at, window).resetAt
  {
  }

  lemma {:induction false} EmptyHistory(limit: Limit, ip: Ip, now: int)
    ensures History([], [], ViewOf(map[], ip), now, limit.window, PerWindow(limit)) && Counting(map[])
  {
  }

  lemma {:induction false} Windows(events: seq<Event>, limit: Limit, ip: Ip, now: int) returns (starts: seq<int>)
    requires Monotone(events)
    requires events != [] ==> events[|events| - 1].at <= now
    ensures History(AllowedTimes(events, limit, ip), starts, ViewOf(Run(events, limit), ip), now, limit.window, PerWindow(limit))
    ensures Counting(Run(events, limit))
    decreases |events|
  {
    hide History, Rolled, Expired, ViewOf, Allowed, Allows, Cleaned, Counting, PerWindow;
    if events == [] {
      starts := [];
      EmptyHistory(limit, ip, now);
    } else {
      var n := |events| - 1;
      var e := events[n];
      var before := Run(events[..n], limit);
      var v := ViewOf(before, ip);
      var times := AllowedTimes(events[..n], limit, ip);
      starts := Windows(events[..n], limit, ip, e.at);
      match e {
        case CleanupCall(at) =>
          CleanView(before, at, ip);
          if Expired(v, at) {
            Removed(times, starts, v, at, limit.window, PerWindow(limit));
          }
        case Request(i, at) =>
          RequestView(before, i, limit, at, ip);
          if i == ip {
            Touched(times, starts, v, at, limit.window, PerWindow(limit));
            if Allows(before, i, limit, at) {
              RolledOpen(v, at, limit.window);
              Admitted(times, starts, Rolled(v, at, limit.window), at, limit.window, PerWindow(limit));
              starts := starts + [Rolled(v, at, limit.window).resetAt - limit.window];
            }
          }
      }
      Later(AllowedTimes(events, limit, ip), starts, ViewOf(Run(events, limit), ip), e.at, now, limit.window, PerWindow(limit));
    }
  }

  /**
    For every monotone history, with cleanups anywhere, an address gets at most twice the limit through in
    any closed interval of one window. A limit below one still admits one request per window.
   */
  lemma {:induction false} RateBound(events: seq<Event>, limit: Limit, ip: Ip, lo: int)
    requires Monotone(events)
    ensures CountIn(AllowedTimes(events, limit, ip), lo, lo + limit.window) <= 2 * PerWindow(limit)
    ensures limit.maxRequests >= 1 ==> PerWindow(limit) == limit.maxRequests
  {
    hide Run, History, AllowedTimes, ViewOf, CountIn;
    var now := if events == [] then 0 else events[|events| - 1].at;
    var starts := Windows(events, limit, ip, now);
    IntervalBound(AllowedTimes(events, limit, ip), starts, ViewOf(Run(events, limit), ip), now, limit.window, PerWindow(limit), lo);
  }

  /** The first request of a history is admitted whatever the limit, zero and negative ones included. */
  lemma {:induction false} FirstAdmitted(limit: Limit, ip: Ip, at: int)
    ensures AllowedTimes([Request(ip, at)], limit, ip) == [at]
  {
    var e := [Request(ip, at)];
    assert e[..0] == [];
    assert Allows(Run([], limit), ip, limit, at);
  }

  ghost predicate Bounded(events: seq<Event>, limit: Limit, ip: Ip, lo: int) {
    Monotone(events) ==> CountIn(AllowedTimes(events, limit, ip), lo, lo + limit.window) <= 2 * limit.maxRequests
  }

  ghost predicate AlwaysBounded(limit: Limit) {
    forall events, ip, lo :: Bounded(events, limit, ip, lo)
  }

  /** Twice the configured limit is a bound for every history if and only if the limit is at least one. */
  lemma {:induction false} BoundIffPositive(limit: Limit)
    ensures AlwaysBounded(limit) <==> limit.maxRequests >= 1
  {
    hide AllowedTimes, CountIn;
    if limit.maxRequests >= 1 {
      forall events, ip, lo ensures Bounded(events, limit, ip, lo) {
        if Monotone(events) { RateBound(events, limit, ip, lo); }
      }
    } else {
      FirstAdmitted(limit, "", 0);
      CountOne(0, limit.window);
      assert !Bounded([Request("", 0)], limit, "", 0);
    }
  }

  lemma {:induction false} CountOne(lo: int, window: nat)
    ensures CountIn([lo], lo, lo + window) == 1
  {
    assert [lo][..0] == [];
  }

  // ---------------------------------------------------------------- what one table admits

  /** The start of the address's current window: the first request after the window before has ended. */
  function WindowOf(events: seq<Event>, limit: Limit, ip: Ip): Option<int> {
    if events == [] then None
    else
      var before := WindowOf(events[..|events| - 1], limit, ip);
      match events[|events| - 1]
      case CleanupCall(_) => before
      case Request(i, at) => if i == ip then Reopened(before, at, limit.window) else before
  }

  lemma {:induction false} WindowKnown(events: seq<Event>, limit: Limit, ip: Ip, now: int)
    requires Monotone(events)
    requires events != [] ==> events[|events| - 1].at <= now
    ensures Knows(AllowedTimes(events, limit, ip), WindowOf(events, limit, ip), ViewOf(Run(events, limit), ip), now, limit.window)
    ensures Counting(Run(events, limit))
    decreases |events|
  {
    hide Knows, Rolled, Expired, ViewOf, Allowed, Allows, Cleaned, Reopened, Counting, PerWindow;
    if events == [] {
      NothingKnown(limit, ip, now);
    } else {
      var n := |events| - 1;
      var e := events[n];
      var before := Run(events[..n], limit);
      var v := ViewOf(before, ip);
      var times, start := AllowedTimes(events[..n], limit, ip), WindowOf(events[..n], limit, ip);
      WindowKnown(events[..n], limit, ip, e.at);
      match e {
        case CleanupCall(at) =>
          CleanView(before, at, ip);
          if Expired(v, at) { KnowsRemoved(times, start, v, at, limit.window); }
        case Request(i, at) =>
          RequestView(before, i, limit, at, ip);
          if i == ip {
            KnowsTouched(times, start, v, at, limit.window);
            if Allows(before, i, limit, at) {
              RolledOpen(v, at, limit.window);
              KnowsAdmitted(times, Reopened(start, at, limit.window), Rolled(v, at, limit.window), at, limit.window);
            }
          }
      }
      KnowsLater(AllowedTimes(events, limit, ip), WindowOf(events, limit, ip), ViewOf(Run(events, limit), ip), e.at, now, limit.window);
    }
  }

  lemma {:induction false} NothingKnown(limit: Limit, ip: Ip, now: int)
    ensures Knows([], None, ViewOf(map[], ip), now, limit.window) && Counting(map[])
  {
  }

  /** A request would be admitted after this history. */
  predicate Admissible(events: seq<Event>, limit: Limit, ip: Ip, now: int) {
    HasRoom(AllowedTimes(events, limit, ip), WindowOf(events, limit, ip), now, limit.window, limit.maxRequests)
  }

  /**
    In every monotone history a request is admitted if and only if it opens a window or fewer than the configured number
    were admitted in the current one.
   */
  lemma {:induction false} AllowedIff(events: seq<Event>, limit: Limit, ip: Ip, now: int)
    requires Monotone(events) && (events != [] ==> events[|events| - 1].at <= now)
    ensures Allows(Run(events, limit), ip, limit, now) <==> Admissible(events, limit, ip, now)
  {
    hide Run, AllowedTimes, WindowOf, CountFrom;
    WindowKnown(events, limit, ip, now);
  }

  // ---------------------------------------------------------------- choosing the route

  /** The position of the first space, or the length if there is none. */
  function FirstSpace(key: string): (k: nat)
    ensures k <= |key| && (k < |key| ==> key[k] == ' ')
    ensures forall i :: 0 <= i < k ==> key[i] != ' '
  {
    if key == "" then 0
    else if key[0] == ' ' then 0
    else 1 + FirstSpace(key[1..])
  }

  /** A key is `METHOD prefix`, or a bare method that covers every path. */
  predicate Matches(key: string, verb: string, path: string) {
    var k := FirstSpace(key);
    if k < |key| then key[..k] == verb && key[k + 1..] <= path else key == verb
  }

  lemma {:induction false} FirstSpaceAt(a: string, b: string)
    requires ' ' !in a
    ensures FirstSpace(a + [' '] + b) == |a| && FirstSpace(a) == |a|
  {
    var s := a + [' '] + b;
    var k := FirstSpace(s);
    assert s[|a|] == ' ';
    assert forall i :: 0 <= i < |a| ==> s[i] == a[i];
  }

  /** A key with a space matches its method and every path that its prefix begins; one without matches its method. */
  lemma {:induction false} MatchForms(m: string, prefix: string, verb: string, path: string)
    requires ' ' !in m
    ensures Matches(m + [' '] + prefix, verb, path) <==> verb == m && |prefix| <= |path| && path[..|prefix|] == prefix
    ensures Matches(m, verb, path) <==> verb == m
  {
    hide FirstSpace;
    FirstSpaceAt(m, prefix);
    var key := m + [' '] + prefix;
    assert key[..|m|] == m && key[|m| + 1..] == prefix;
  }

  /** Two matching keys of the same length are the same key. */
  lemma {:induction false} MatchByLength(a: string, b: string, verb: string, path: string)
    requires Matches(a, verb, path) && Matches(b, verb, path) && |a| == |b|
    ensures a == b
  {
    hide FirstSpace;
    var j, k := FirstSpace(a), FirstSpace(b);
    if j < |a| && k < |b| {
      assert a == a[..j] + [' '] + a[j + 1..];
      assert b == b[..k] + [' '] + b[k + 1..];
      assert a[j + 1..] == path[..|a| - j - 1] && b[k + 1..] == path[..|b| - k - 1];
    }
  }

  datatype Choice = NoRoute | Route(key: string, limit: Limit)

  /** Whatever order the map is walked in, the longest matching key is chosen, and it is unique. */
  method MatchRoute(limits: map<string, Limit>, verb: string, path: string) returns (best: Choice)
    ensures best.NoRoute? <==> forall key :: key in limits ==> !Matches(key, verb, path)
    ensures best.Route? ==> best.key in limits && best.limit == limits[best.key] && Matches(best.key, verb, path)
    ensures best.Route? ==> forall key :: key in limits && Matches(key, verb, path) && key != best.key ==> |key| < |best.key|
  {
    hide Matches, FirstSpace;
    var bestKey := "";
    best := NoRoute;
    var todo := limits.Keys;
    while todo != {}
      invariant todo <= limits.Keys
      invariant best.NoRoute? ==> bestKey == "" && forall key :: key in limits && key !in todo ==> !Matches(key, verb, path)
      invariant best.Route? ==> best.key == bestKey && bestKey in limits && bestKey !in todo
      invariant best.Route? ==> best.limit == limits[bestKey] && Matches(bestKey, verb, path)
      invariant best.Route? ==>
        forall key :: key in limits && key !in todo && Matches(key, verb, path) && key != bestKey ==> |key| < |bestKey|
      decreases todo
    {
      var key :| key in todo;
      todo := todo - {key};
      if Matches(key, verb, path) {
        if best.Route? && |key| == |bestKey| {
          MatchByLength(key, bestKey, verb, path);
        }
        if best.NoRoute? || |key| > |bestKey| {
          bestKey := key;
          best := Route(key, limits[key]);
        }
      }
    }
  }

  // ---------------------------------------------------------------- the limiter

  /** `global` and the tables of all routes; every route limit has a table. */
  datatype Limiter = Limiter(
    limits: map<string, Limit>, global: Option<Limit>, visitors: map<string, Visitors>, globalV: Visitors)

  predicate Consistent(l: Limiter) {
    l.visitors.Keys == l.limits.Keys
  }

  predicate PassesGlobal(l: Limiter, ip: Ip, now: int) {
    l.global.None? || Allows(l.globalV, ip, l.global.value, now)
  }

  function CountedGlobal(l: Limiter, ip: Ip, now: int): Limiter {
    if l.global.None? then l else l.(globalV := Allowed(l.globalV, ip, l.global.value, now))
  }

  predicate PassesRoute(l: Limiter, route: Option<string>, ip: Ip, now: int) {
    if route.Some? && route.value in l.limits && route.value in l.visitors
    then Allows(l.visitors[route.value], ip, l.limits[route.value], now)
    else true
  }

  function CountedRoute(l: Limiter, route: Option<string>, ip: Ip, now: int): Limiter {
    if route.Some? && route.value in l.limits && route.value in l.visitors
    then l.(visitors := l.visitors[route.value := Allowed(l.visitors[route.value], ip, l.limits[route.value], now)])
    else l
  }

  predicate Serves(l: Limiter, route: Option<string>, ip: Ip, now: int) {
    PassesGlobal(l, ip, now) && PassesRoute(l, route, ip, now)
  }

  /** A request refused by the global limit does not reach the route's table. */
  function Requested(l: Limiter, route: Option<string>, ip: Ip, now: int): Limiter {
    var l1 := CountedGlobal(l, ip, now);
    if PassesGlobal(l, ip, now) then CountedRoute(l1, route, ip, now) else l1
  }

  function CleanedAll(l: Limiter, now: int): Limiter {
    l.(visitors := map key | key in l.visitors :: Cleaned(l.visitors[key], now), globalV := Cleaned(l.globalV, now))
  }

  /** Exactly the expired visitors are gone. */
  ghost predicate Swept(before: Visitors, after: Visitors, now: int) {
    && (forall ip :: ip in after <==> ip in before && now <= before[ip].resetAt)
    && (forall ip :: ip in after ==> after[ip] == before[ip])
  }

  lemma {:induction false} CleanedSweeps(table: Visitors, now: int)
    ensures Swept(table, Cleaned(table, now), now)
  {
  }

  class RouteRateLimiter {
    var limits: map<string, Limit>
    var global: Option<Limit>
    var visitors: map<string, Visitors>
    var globalV: Visitors

    ghost function State(): Limiter
      reads this
    {
      Limiter(limits, global, visitors, globalV)
    }

    constructor ()
      ensures State() == Limiter(map[], None, map[], map[]) && Consistent(State())
    {
      limits, global, visitors, globalV := map[], None, map[], map[];
    }

    /** A new limit starts with an empty table. */
    method AddLimit(prefix: string, limit: Limit)
      requires Consistent(State())
      modifies this
      ensures State() == old(State()).(limits := old(limits)[prefix := limit], visitors := old(visitors)[prefix := map[]])
      ensures Consistent(State())
    {
      limits := limits[prefix := limit];
      visitors := visitors[prefix := map[]];
    }

    method SetGlobalLimit(limit: Limit)
      modifies this`global
      ensures State() == old(State()).(global := Some(limit))
    {
      global := Some(limit);
    }

    /** One table, named by its route or by none for the global one. */
    method AllowLocked(table: Option<string>, ip: Ip, limit: Limit, now: int) returns (ok: bool)
      requires table.Some? ==> table.value in visitors
      modifies this`visitors, this`globalV
      ensures var before := if table.Some? then old(visitors)[table.value] else old(globalV);
              && ok == Allows(before, ip, limit, now)
              && globalV == (if table.Some? then old(globalV) else Allowed(before, ip, limit, now))
              && visitors == if table.Some? then old(visitors)[table.value := Allowed(before, ip, limit, now)] else old(visitors)
    {
      var before := if table.Some? then visitors[table.value] else globalV;
      var after := before;
      if ip !in before || now > before[ip].resetAt {
        after := before[ip := Visitor(1, now + limit.window)];
        ok := true;
      } else {
        var v := before[ip];
        ok := v.count < limit.maxRequests;
        if ok {
          after := before[ip := v.(count := v.count + 1)];
        }
      }
      if table.Some? {
        visitors := visitors[table.value := after];
      } else {
        globalV := after;
      }
    }

    /** The decision for one request, under the lock. */
    method Middleware(verb: string, path: string, ip: Ip, now: int) returns (ok: bool, ghost route: Option<string>)
      requires Consistent(State())
      modifies this`visitors, this`globalV
      ensures Consistent(State())
      ensures route.None? <==> forall key :: key in limits ==> !Matches(key, verb, path)
      ensures route.Some? ==> route.value in limits && Matches(route.value, verb, path)
      ensures route.Some? ==> forall key :: key in limits && Matches(key, verb, path) && key != route.value ==> |key| < |route.value|
      ensures ok == Serves(old(State()), route, ip, now)
      ensures State() == Requested(old(State()), route, ip, now)
    {
      hide Matches, Allows, Allowed;
      var best := MatchRoute(limits, verb, path);
      route := if best.Route? then Some(best.key) else None;
      if global.Some? {
        ok := AllowLocked(None, ip, global.value, now);
        if !ok {
          return;
        }
      }
      if best.Route? {
        ok := AllowLocked(Some(best.key), ip, best.limit, now);
        return;
      }
      ok := true;
    }

    method CleanTable(table: Visitors, now: int) returns (r: Visitors)
      ensures r == Cleaned(table, now)
      ensures forall ip :: ip in r <==> ip in table && now <= table[ip].resetAt
      ensures forall ip :: ip in r ==> r[ip] == table[ip]
    {
      r := table;
      var todo := table.Keys;
      while todo != {}
        invariant todo <= table.Keys
        invariant forall ip :: ip in r <==> ip in table && (ip in todo || now <= table[ip].resetAt)
        invariant forall ip :: ip in r ==> r[ip] == table[ip]
        decreases todo
      {
        var ip :| ip in todo;
        todo := todo - {ip};
        if now > r[ip].resetAt {
          r := r - {ip};
        }
      }
    }

    /** Expired visitors leave every table. */
    method Cleanup(now: int)
      modifies this`visitors, this`globalV
      ensures State() == CleanedAll(old(State()), now)
      ensures visitors.Keys == old(visitors).Keys
      ensures forall key :: key in visitors ==> Swept(old(visitors)[key], visitors[key], now)
      ensures Swept(old(globalV), globalV, now)
    {
      hide Cleaned;
      var todo := visitors.Keys;
      while todo != {}
        invariant todo <= visitors.Keys == old(visitors).Keys
        invariant forall key :: key in visitors ==>
          visitors[key] == if key in todo then old(visitors)[key] else Cleaned(old(visitors)[key], now)
        invariant globalV == old(globalV)
        decreases todo
      {
        var key :| key in todo;
        todo := todo - {key};
        var table := CleanTable(visitors[key], now);
        visitors := visitors[key := table];
      }
      globalV := CleanTable(globalV, now);
      forall key | key in visitors ensures Swept(old(visitors)[key], visitors[key], now) { CleanedSweeps(old(visitors)[key], now); }
      CleanedSweeps(old(globalV), now);
    }
  }

  // ---------------------------------------------------------------- histories of the limiter

  /** A request with the route that matches it, or a cleanup. */
  datatype Call = Arrival(route: Option<string>, ip: Ip, at: int) | Sweep(at: int)

  predicate InOrder(calls: seq<Call>) {
    forall i, j :: 0 <= i < j < |calls| ==> calls[i].at <= calls[j].at
  }

  function Configured(limits: map<string, Limit>, global: Option<Limit>): Limiter {
    Limiter(limits, global, map key | key in limits :: map[], map[])
  }

  function Handle(l: Limiter, call: Call): Limiter {
    match call
    case Arrival(route, ip, at) => Requested(l, route, ip, at)
    case Sweep(at) => CleanedAll(l, at)
  }

  function RunAll(l: Limiter, calls: seq<Call>): Limiter {
    if calls == [] then l else Handle(RunAll(l, calls[..|calls| - 1]), calls[|calls| - 1])
  }

  /** What the global table sees of a history. */
  function GlobalEvents(calls: seq<Call>): seq<Event> {
    if calls == [] then []
    else
      var n := |calls| - 1;
      GlobalEvents(calls[..n]) + match calls[n] case Arrival(_, ip, at) => [Request(ip, at)] case Sweep(at) => [CleanupCall(at)]
  }

  /** What the table of a route sees: its requests, if they passed the global limit. */
  function RouteEvents(l: Limiter, calls: seq<Call>, key: string): seq<Event> {
    if calls == [] then []
    else
      var n := |calls| - 1;
      RouteEvents(l, calls[..n], key) +
      match calls[n]
      case Arrival(route, ip, at) =>
        if route == Some(key) && PassesGlobal(RunAll(l, calls[..n]), ip, at) then [Request(ip, at)] else []
      case Sweep(at) => [CleanupCall(at)]
  }

  /** The times at which an address was served, by any route. */
  function ServedTimes(l: Limiter, calls: seq<Call>, ip: Ip): seq<int> {
    if calls == [] then []
    else
      var n := |calls| - 1;
      var before := ServedTimes(l, calls[..n], ip);
      match calls[n]
      case Sweep(_) => before
      case Arrival(route, i, at) => if i == ip && Serves(RunAll(l, calls[..n]), route, i, at) then before + [at] else before
  }

  /** The times at which an address was served by the given route. */
  function ServedBy(l: Limiter, calls: seq<Call>, key: string, ip: Ip): seq<int> {
    if calls == [] then []
    else
      var n := |calls| - 1;
      var before := ServedBy(l, calls[..n], key, ip);
      match calls[n]
      case Sweep(_) => before
      case Arrival(route, i, at) =>
        if i == ip && route == Some(key) && Serves(RunAll(l, calls[..n]), route, i, at) then before + [at] else before
  }

  lemma {:induction false} ConfigStays(limits: map<string, Limit>, global: Option<Limit>, calls: seq<Call>)
    ensures var l := RunAll(Configured(limits, global), calls);
            l.limits == limits && l.global == global && l.visitors.Keys == limits.Keys
    decreases |calls|
  {
    hide Allows, Allowed, Cleaned;
    if calls != [] { ConfigStays(limits, global, calls[..|calls| - 1]); }
  }

  lemma {:induction false} RunStep(events: seq<Event>, e: Event, limit: Limit, ip: Ip)
    ensures Run(events + [e], limit)
         == match e case Request(i, at) => Allowed(Run(events, limit), i, limit, at) case CleanupCall(at) => Cleaned(Run(events, limit), at)
    ensures AllowedTimes(events + [e], limit, ip)
         == if e.Request? && e.ip == ip && Allows(Run(events, limit), e.ip, limit, e.at)
            then AllowedTimes(events, limit, ip) + [e.at] else AllowedTimes(events, limit, ip)
  {
    hide Allows, Allowed, Cleaned;
    assert (events + [e])[..|events + [e]| - 1] == events;
  }

  /** The global table of a history is that of its projection, and whoever is served was admitted by it. */
  lemma {:induction false} GlobalProjection(limits: map<string, Limit>, global: Limit, calls: seq<Call>, ip: Ip, lo: int, hi: int)
    ensures var l := Configured(limits, Some(global));
            && RunAll(l, calls).globalV == Run(GlobalEvents(calls), global)
            && CountIn(ServedTimes(l, calls, ip), lo, hi) <= CountIn(AllowedTimes(GlobalEvents(calls), global, ip), lo, hi)
    decreases |calls|
  {
    hide Allows, Allowed, Cleaned, CountIn, Run, AllowedTimes;
    var l := Configured(limits, Some(global));
    if calls == [] {
      EmptyRuns(global, ip);
    } else {
      var n := |calls| - 1;
      GlobalProjection(limits, global, calls[..n], ip, lo, hi);
      ConfigStays(limits, Some(global), calls[..n]);
      var e := match calls[n] case Arrival(_, i, at) => Request(i, at) case Sweep(at) => CleanupCall(at);
      RunStep(GlobalEvents(calls[..n]), e, global, ip);
      CountSnoc(ServedTimes(l, calls[..n], ip), e.at, lo, hi);
      CountSnoc(AllowedTimes(GlobalEvents(calls[..n]), global, ip), e.at, lo, hi);
    }
  }

  lemma {:induction false} EmptyRuns(limit: Limit, ip: Ip)
    ensures Run([], limit) == map[] && AllowedTimes([], limit, ip) == []
  {
  }

  lemma {:induction false} CountSnoc(times: seq<int>, t: int, lo: int, hi: int)
    ensures CountIn(times + [t], lo, hi) == CountIn(times, lo, hi) + if lo <= t <= hi then 1 else 0
  {
    assert (times + [t])[..|times + [t]| - 1] == times;
  }

  /** A route's table is that of its projection, and it serves exactly whom that table admits. */
  lemma {:induction false} RouteProjection(
    limits: map<string, Limit>, global: Option<Limit>, calls: seq<Call>, key: string, ip: Ip)
    requires key in limits
    ensures var l := Configured(limits, global);
            && key in RunAll(l, calls).visitors
            && RunAll(l, calls).visitors[key] == Run(RouteEvents(l, calls, key), limits[key])
            && ServedBy(l, calls, key, ip) == AllowedTimes(RouteEvents(l, calls, key), limits[key], ip)
    decreases |calls|
  {
    hide Allows, Allowed, Cleaned, Run, AllowedTimes;
    var l := Configured(limits, global);
    if calls == [] {
      EmptyRuns(limits[key], ip);
    } else {
      var n := |calls| - 1;
      RouteProjection(limits, global, calls[..n], key, ip);
      ConfigStays(limits, global, calls[..n]);
      var before := RouteEvents(l, calls[..n], key);
      match calls[n]
      case Sweep(at) => RunStep(before, CleanupCall(at), limits[key], ip);
      case Arrival(route, i, at) =>
        if route == Some(key) && PassesGlobal(RunAll(l, calls[..n]), i, at) {
          RunStep(before, Request(i, at), limits[key], ip);
        } else {
          assert before + [] == before;
        }
    }
  }

  /** Projections keep the order of time. */
  lemma {:induction false} GlobalInOrder(calls: seq<Call>)
    requires InOrder(calls)
    ensures Monotone(GlobalEvents(calls))
    ensures |GlobalEvents(calls)| == |calls| && forall i :: 0 <= i < |calls| ==> GlobalEvents(calls)[i].at == calls[i].at
    decreases |calls|
  {
    if calls != [] { GlobalInOrder(calls[..|calls| - 1]); }
  }

  lemma {:induction false} RouteInOrder(l: Limiter, calls: seq<Call>, key: string)
    requires InOrder(calls)
    ensures Monotone(RouteEvents(l, calls, key))
    ensures forall i :: 0 <= i < |RouteEvents(l, calls, key)| ==> RouteEvents(l, calls, key)[i].at <= calls[|calls| - 1].at
    ensures calls == [] ==> RouteEvents(l, calls, key) == []
    decreases |calls|
  {
    hide PassesGlobal, RunAll;
    if calls != [] {
      var n := |calls| - 1;
      RouteInOrder(l, calls[..n], key);
      assert n > 0 ==> calls[n - 1].at <= calls[n].at;
    }
  }

  /**
    For every history of the middleware, with cleanups anywhere: in any closed interval of one window an address is
    served by a route at most twice that route's limit, and in all at most twice the global limit.
   */
  lemma {:induction false} MiddlewareBound(limits: map<string, Limit>, global: Option<Limit>, calls: seq<Call>, ip: Ip, lo: int)
    requires InOrder(calls)
    ensures forall key :: key in limits ==>
      CountIn(ServedBy(Configured(limits, global), calls, key, ip), lo, lo + limits[key].window) <= 2 * PerWindow(limits[key])
    ensures global.Some? ==>
      CountIn(ServedTimes(Configured(limits, global), calls, ip), lo, lo + global.value.window) <= 2 * PerWindow(global.value)
  {
    hide CountIn, ServedBy, ServedTimes, AllowedTimes, Run, RouteEvents, GlobalEvents, Monotone;
    forall key | key in limits
      ensures CountIn(ServedBy(Configured(limits, global), calls, key, ip), lo, lo + limits[key].window) <= 2 * PerWindow(limits[key])
    {
      RouteProjection(limits, global, calls, key, ip);
      RouteInOrder(Configured(limits, global), calls, key);
      RateBound(RouteEvents(Configured(limits, global), calls, key), limits[key], ip, lo);
    }
    if global.Some? {
      GlobalProjection(limits, global.value, calls, ip, lo, lo + global.value.window);
      GlobalInOrder(calls);
      RateBound(GlobalEvents(calls), global.value, ip, lo);
    }
  }

  /**
    In every history of the middleware a request is served if and only if the global table, if there is a global limit, and
    the table of its route, if it has one, have room for it.
   */
  lemma {:induction false} ServedIff(
    limits: map<string, Limit>, global: Option<Limit>, calls: seq<Call>, route: Option<string>, ip: Ip, now: int)
    requires InOrder(calls) && (calls != [] ==> calls[|calls| - 1].at <= now)
    requires route.Some? ==> route.value in limits
    ensures var l := Configured(limits, global);
            Serves(RunAll(l, calls), route, ip, now)
            <==> && (global.Some? ==> Admissible(GlobalEvents(calls), global.value, ip, now))
                 && (route.Some? ==> Admissible(RouteEvents(l, calls, route.value), limits[route.value], ip, now))
  {
    hide Allows, Run, AllowedTimes, RouteEvents, GlobalEvents, Monotone, RunAll, Admissible, CountIn, ServedTimes, ServedBy;
    var l := Configured(limits, global);
    ConfigStays(limits, global, calls);
    if global.Some? {
      GlobalProjection(limits, global.value, calls, ip, 0, 0);
      GlobalInOrder(calls);
      AllowedIff(GlobalEvents(calls), global.value, ip, now);
    }
    if route.Some? {
      RouteProjection(limits, global, calls, route.value, ip);
      RouteInOrder(l, calls, route.value);
      AllowedIff(RouteEvents(l, calls, route.value), limits[route.value], ip, now);
    }
  }
}
