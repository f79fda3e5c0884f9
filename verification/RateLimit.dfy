/**
 The fixed-window rate limiter (crates/api/src/rate_limit.rs): one counter for each tier, identity and
 minute, incremented by every request and left to expire.
 */
module RateLimit {
  import opened Common

  datatype Tier = Auth | Write | Read | Protocol
  {
    function Prefix(): string {
      match this
      case Auth => "rl:auth"
      case Write => "rl:write"
      case Read => "rl:read"
      case Protocol => "rl:proto"
    }
  }

  /** `time` is in milliseconds since the epoch. */
  datatype Request = Request(time: nat, tier: Tier, identity: string)

  datatype Counter = Counter(count: nat, expiresAt: Option<nat>)

  datatype Outcome = AllowedRequest(current: nat, limit: nat) | Exceeded(limit: nat, retryAfter: nat) | RedisError

  const SECOND := 1000
  const WINDOW_SECONDS := 60
  const WINDOW := WINDOW_SECONDS * SECOND

  function WindowOf(time: nat): nat {
    time / SECOND / WINDOW_SECONDS
  }

  function Decimal(n: nat): string {
    if n < 10 then [('0' as int + n) as char] else Decimal(n / 10) + [('0' as int + n % 10) as char]
  }

  function RedisKey(tier: Tier, identity: string, window: nat): string {
    tier.Prefix() + (":" + (identity + (":" + Decimal(window))))
  }

  function KeyOf(r: Request): string {
    RedisKey(r.tier, r.identity, WindowOf(r.time))
  }

  // ---------------------------------------------------------------- keys

  lemma {:induction false} DecimalInjective(a: nat, b: nat)
    requires Decimal(a) == Decimal(b)
    ensures a == b
  {
    var s, t := Decimal(a), Decimal(b);
    assert s[|s| - 1] == t[|t| - 1];
    if a < 10 || b < 10 {
      DecimalLength(a);
      DecimalLength(b);
    } else {
      assert s[..|s| - 1] == Decimal(a / 10) && t[..|t| - 1] == Decimal(b / 10);
      DecimalInjective(a / 10, b / 10);
    }
  }

  lemma {:induction false} DecimalLength(n: nat)
    ensures |Decimal(n)| >= 1 && (|Decimal(n)| == 1 <==> n < 10)
  {
    if n >= 10 {
      DecimalLength(n / 10);
    }
  }

  lemma {:induction false} DecimalDigits(n: nat)
    ensures ':' !in Decimal(n)
  {
    if n >= 10 {
      DecimalDigits(n / 10);
    }
  }

  lemma ColonLater(a: string, b: string, x: string, y: string)
    requires a + (":" + x) == b + (":" + y) && |a| < |b|
    ensures ':' in x
  {
    assert (b + (":" + y))[|b|] == ':';
    assert (a + (":" + x))[|b|] == x[|b| - |a| - 1];
  }

  lemma SplitAtLastColon(a: string, b: string, x: string, y: string)
    requires ':' !in x && ':' !in y && a + (":" + x) == b + (":" + y)
    ensures a == b && x == y
  {
    var s, t := a + (":" + x), b + (":" + y);
    if |a| < |b| {
      ColonLater(a, b, x, y);
    } else if |b| < |a| {
      ColonLater(b, a, y, x);
    }
    assert s[..|a|] == a && t[..|b|] == b;
    assert s[|a| + 1..] == x && t[|b| + 1..] == y;
  }

  lemma SamePrefix(a: Tier, b: Tier, x: string, y: string)
    requires a.Prefix() + (":" + x) == b.Prefix() + (":" + y)
    ensures a == b && x == y
  {
    var s, t := a.Prefix() + (":" + x), b.Prefix() + (":" + y);
    assert s[3] == a.Prefix()[3] && t[3] == b.Prefix()[3];
    assert a == b;
    var n := |a.Prefix()| + 1;
    assert s[n..] == x && t[n..] == y;
  }

  /** Tier, identity and minute can be read off a key, so no two of them share a counter. */
  lemma RedisKeyInjective(a: Tier, i: string, w: nat, b: Tier, j: string, v: nat)
    requires RedisKey(a, i, w) == RedisKey(b, j, v)
    ensures a == b && i == j && w == v
  {
    SamePrefix(a, b, i + (":" + Decimal(w)), j + (":" + Decimal(v)));
    DecimalDigits(w);
    DecimalDigits(v);
    SplitAtLastColon(i, j, Decimal(w), Decimal(v));
    DecimalInjective(w, v);
  }

  /** The number that a string of digits stands for. */
  function ReadDecimal(digits: string): int {
    if digits == "" then 0
    else 10 * ReadDecimal(digits[..|digits| - 1]) + (digits[|digits| - 1] as int - '0' as int)
  }

  lemma {:induction false} DecimalReadsBack(n: nat)
    ensures ReadDecimal(Decimal(n)) == n && forall c | c in Decimal(n) :: '0' <= c <= '9'
  {
    if n >= 10 {
      DecimalReadsBack(n / 10);
      assert Decimal(n)[..|Decimal(n)| - 1] == Decimal(n / 10);
    }
  }

  /** The key of a request, with the number of its minute since the epoch. */
  lemma KeyWrittenOut(r: Request)
    ensures WINDOW == 60000
    ensures var prefix := match r.tier
        case Auth => "rl:auth"
        case Write => "rl:write"
        case Read => "rl:read"
        case Protocol => "rl:proto";
      KeyOf(r) == prefix + (":" + (r.identity + (":" + Decimal(r.time / 60000))))
  {
    assert r.time / 1000 / 60 == r.time / 60000;
  }

  // ---------------------------------------------------------------- counting requests

  function Count(requests: seq<Request>, key: string): nat {
    if requests == [] then 0
    else Count(requests[..|requests| - 1], key) + if KeyOf(requests[|requests| - 1]) == key then 1 else 0
  }

  lemma CountNext(requests: seq<Request>, r: Request, key: string)
    ensures Count(requests + [r], key) == Count(requests, key) + if KeyOf(r) == key then 1 else 0
  {
    assert (requests + [r])[..|requests|] == requests;
  }

  /** The reply of INCR and the counter it leaves; a counter whose time is up is as good as none. */
  function Incremented(counters: map<string, Counter>, key: string, now: nat): Counter {
    if key in counters && (counters[key].expiresAt.Some? ==> now < counters[key].expiresAt.value)
    then counters[key].(count := counters[key].count + 1)
    else Counter(1, None)
  }

  lemma WindowBounds(time: nat)
    ensures WindowOf(time) * WINDOW <= time < (WindowOf(time) + 1) * WINDOW
  {
  }

  /** The counters after INCR and, for the first request of a minute, EXPIRE. */
  function AfterRequest(counters: map<string, Counter>, key: string, now: nat, expireLost: bool): map<string, Counter> {
    var c := Incremented(counters, key, now);
    counters[key := if c.count == 1 && !expireLost then Counter(1, Some(now + WINDOW)) else c]
  }

  ghost predicate Kept(counters: map<string, Counter>, history: seq<Request>, key: string, window: nat) {
    Count(history, key) > 0 ==>
      && key in counters
      && counters[key].count == Count(history, key)
      && (counters[key].expiresAt.Some? ==> counters[key].expiresAt.value >= (window + 1) * WINDOW)
  }

  /** Each counter holds the number of requests made under its key, until the minute of the key is over at least. */
  ghost predicate Consistent(counters: map<string, Counter>, history: seq<Request>) {
    && (forall key | key in counters :: Count(history, key) > 0)
    && (forall tier, identity, window :: Kept(counters, history, RedisKey(tier, identity, window), window))
  }

  /** A counter cannot expire in its own minute, so the reply of INCR is exact. */
  lemma CountedExactly(counters: map<string, Counter>, history: seq<Request>, r: Request)
    requires Consistent(counters, history)
    ensures Incremented(counters, KeyOf(r), r.time).count == Count(history, KeyOf(r)) + 1
    ensures Count(history, KeyOf(r)) > 0 ==>
      && KeyOf(r) in counters
      && Incremented(counters, KeyOf(r), r.time).expiresAt == counters[KeyOf(r)].expiresAt
  {
    hide RedisKey, WindowOf;
    WindowBounds(r.time);
    assert Kept(counters, history, RedisKey(r.tier, r.identity, WindowOf(r.time)), WindowOf(r.time));
  }

  lemma ConsistentNext(counters: map<string, Counter>, history: seq<Request>, r: Request, expireLost: bool)
    requires Consistent(counters, history)
    ensures Consistent(AfterRequest(counters, KeyOf(r), r.time, expireLost), history + [r])
  {
    var counters' := AfterRequest(counters, KeyOf(r), r.time, expireLost);
    forall key | key in counters' ensures Count(history + [r], key) > 0 {
      CountNext(history, r, key);
    }
    forall tier, identity, window ensures Kept(counters', history + [r], RedisKey(tier, identity, window), window) {
      KeptNext(counters, history, r, expireLost, tier, identity, window);
    }
  }

  lemma KeptNext(counters: map<string, Counter>, history: seq<Request>, r: Request, expireLost: bool, tier: Tier, identity: string, window: nat)
    requires Consistent(counters, history)
    ensures Kept(AfterRequest(counters, KeyOf(r), r.time, expireLost), history + [r], RedisKey(tier, identity, window), window)
  {
    hide RedisKey, WindowOf, Count;
    var key := RedisKey(tier, identity, window);
    CountNext(history, r, key);
    CountedExactly(counters, history, r);
    WindowBounds(r.time);
    assert Kept(counters, history, key, window);
    if key == KeyOf(r) {
      RedisKeyInjective(tier, identity, window, r.tier, r.identity, WindowOf(r.time));
    }
    hide Incremented;
  }

  // ---------------------------------------------------------------- runs of the limiter

  /** A request, and what Redis does with it. */
  datatype Call = Call(request: Request, incrFails: bool, expireLost: bool)

  function CountersAfter(calls: seq<Call>): map<string, Counter> {
    if calls == [] then map[]
    else
      var last := calls[|calls| - 1];
      var before := CountersAfter(calls[..|calls| - 1]);
      if last.incrFails then before else AfterRequest(before, KeyOf(last.request), last.request.time, last.expireLost)
  }

  /** The requests that were counted. */
  function Counted(calls: seq<Call>): seq<Request> {
    if calls == [] then []
    else
      var last := calls[|calls| - 1];
      Counted(calls[..|calls| - 1]) + if last.incrFails then [] else [last.request]
  }

  /** Request `i` gets through: by its counter, or because Redis failed. */
  predicate LetThrough(limits: Tier -> nat, calls: seq<Call>, i: nat)
    requires i < |calls|
  {
    var r := calls[i].request;
    calls[i].incrFails || Incremented(CountersAfter(calls[..i]), KeyOf(r), r.time).count <= limits(r.tier)
  }

  lemma {:induction false} CountersConsistent(calls: seq<Call>)
    ensures Consistent(CountersAfter(calls), Counted(calls))
  {
    if calls != [] {
      hide Consistent, AfterRequest, KeyOf;
      var init, last := calls[..|calls| - 1], calls[|calls| - 1];
      CountersConsistent(init);
      if last.incrFails {
        assert Counted(init) + [] == Counted(init);
      } else {
        ConsistentNext(CountersAfter(init), Counted(init), last.request, last.expireLost);
      }
    }
  }

  lemma NextCall(calls: seq<Call>, call: Call)
    ensures var all := calls + [call];
      && all[..|calls|] == calls
      && CountersAfter(all) == (if call.incrFails then CountersAfter(calls)
                                else AfterRequest(CountersAfter(calls), KeyOf(call.request), call.request.time, call.expireLost))
  {
    assert (calls + [call])[..|calls|] == calls;
  }

  class Limiter {
    const limits: Tier -> nat
    var counters: map<string, Counter>
    /** The requests served so far. */
    ghost var calls: seq<Call>

    constructor (limits: Tier -> nat)
      ensures this.limits == limits && calls == [] && Valid()
    {
      this.limits := limits;
      counters := map[];
      calls := [];
    }

    ghost predicate Valid()
      reads this
    {
      counters == CountersAfter(calls)
    }

    /** INCR, EXPIRE for the first request, and TTL for the reply when there are too many. */
    method CheckRateLimit(key: string, maxRequests: nat, now: nat, incrFails: bool, expireLost: bool, ttl: Option<int>)
      returns (outcome: Outcome)
      modifies this`counters
      ensures incrFails ==> outcome == RedisError && counters == old(counters)
      ensures !incrFails ==>
        var c := Incremented(old(counters), key, now);
        && counters == AfterRequest(old(counters), key, now, expireLost)
        && (if c.count <= maxRequests then outcome == AllowedRequest(c.count, maxRequests)
            else outcome.Exceeded? && outcome.limit == maxRequests && outcome.retryAfter > 0
                 && (if ttl.Some? && ttl.value > 0 then outcome.retryAfter == ttl.value else outcome.retryAfter == 60))
    {
      if incrFails {
        return RedisError;
      }
      counters := counters[key := Incremented(counters, key, now)];
      var count := counters[key].count;
      if count == 1 {
        if !expireLost {
          counters := counters[key := counters[key].(expiresAt := Some(now + WINDOW))];
        }
      }
      if count > maxRequests {
        var left := ttl.GetOr(60);
        outcome := Exceeded(maxRequests, if left > 0 then left else 60);
      } else {
        outcome := AllowedRequest(count, maxRequests);
      }
    }

    /**
     A request is allowed exactly if fewer than the limit were counted before it with the same tier and
     identity in the same minute; losing EXPIRE makes no difference, and a failing INCR lets the request through.
     */
    method RateLimitRequest(r: Request, incrFails: bool, expireLost: bool, ttl: Option<int>) returns (outcome: Outcome)
      requires Valid()
      modifies this
      ensures Valid() && calls == old(calls) + [Call(r, incrFails, expireLost)]
      ensures outcome.RedisError? <==> incrFails
      ensures !incrFails ==>
        && (outcome.AllowedRequest? <==> Count(Counted(old(calls)), KeyOf(r)) < limits(r.tier))
        && (outcome.AllowedRequest? ==> outcome.current == Count(Counted(old(calls)), KeyOf(r)) + 1)
      ensures !outcome.Exceeded? <==> LetThrough(limits, calls, |old(calls)|)
    {
      ghost var call := Call(r, incrFails, expireLost);
      CountersConsistent(calls);
      CountedExactly(counters, Counted(calls), r);
      NextCall(calls, call);
      hide Consistent, Incremented, AfterRequest, KeyOf, CountersAfter;
      outcome := CheckRateLimit(KeyOf(r), limits(r.tier), r.time, incrFails, expireLost, ttl);
      calls := calls + [call];
    }
  }

  // ---------------------------------------------------------------- how many get through

  /** Counted request `i` finds room. */
  predicate AllowedAt(limits: Tier -> nat, requests: seq<Request>, i: nat)
    requires i < |requests|
  {
    Count(requests[..i], KeyOf(requests[i])) < limits(requests[i].tier)
  }

  function AllowedUnder(limits: Tier -> nat, requests: seq<Request>, key: string): nat {
    if requests == [] then 0
    else
      var n := |requests| - 1;
      AllowedUnder(limits, requests[..n], key)
      + if KeyOf(requests[n]) == key && AllowedAt(limits, requests, n) then 1 else 0
  }

  /** Of the requests counted in one minute, exactly the first `max` find room. */
  lemma {:induction false} FirstOnesFindRoom(limits: Tier -> nat, requests: seq<Request>, tier: Tier, identity: string, window: nat)
    ensures var key := RedisKey(tier, identity, window); var n := Count(requests, key);
      AllowedUnder(limits, requests, key) == if n < limits(tier) then n else limits(tier)
  {
    if requests != [] {
      var n := |requests| - 1;
      var r := requests[n];
      FirstOnesFindRoom(limits, requests[..n], tier, identity, window);
      if KeyOf(r) == RedisKey(tier, identity, window) {
        RedisKeyInjective(r.tier, r.identity, WindowOf(r.time), tier, identity, window);
      }
    }
  }

  predicate Within(r: Request, tier: Tier, identity: string, from: nat) {
    r.tier == tier && r.identity == identity && from <= r.time < from + WINDOW
  }

  function AllowedWithin(limits: Tier -> nat, requests: seq<Request>, tier: Tier, identity: string, from: nat): nat {
    if requests == [] then 0
    else
      var n := |requests| - 1;
      AllowedWithin(limits, requests[..n], tier, identity, from)
      + if Within(requests[n], tier, identity, from) && AllowedAt(limits, requests, n) then 1 else 0
  }

  lemma {:induction false} WithinTwoWindows(limits: Tier -> nat, requests: seq<Request>, tier: Tier, identity: string, from: nat)
    ensures var w := WindowOf(from);
      AllowedWithin(limits, requests, tier, identity, from)
      <= AllowedUnder(limits, requests, RedisKey(tier, identity, w)) + AllowedUnder(limits, requests, RedisKey(tier, identity, w + 1))
  {
    hide RedisKey, WindowOf, Count;
    if requests != [] {
      var n := |requests| - 1;
      WithinTwoWindows(limits, requests[..n], tier, identity, from);
      if Within(requests[n], tier, identity, from) {
        WindowBounds(from);
        WindowBounds(requests[n].time);
        assert WindowOf(from) * WINDOW < (WindowOf(requests[n].time) + 1) * WINDOW < (WindowOf(from) + 3) * WINDOW;
      }
    }
  }

  lemma RoomForTwice(limits: Tier -> nat, requests: seq<Request>, tier: Tier, identity: string, from: nat)
    ensures AllowedWithin(limits, requests, tier, identity, from) <= 2 * limits(tier)
  {
    WithinTwoWindows(limits, requests, tier, identity, from);
    FirstOnesFindRoom(limits, requests, tier, identity, WindowOf(from));
    FirstOnesFindRoom(limits, requests, tier, identity, WindowOf(from) + 1);
  }

  function Repeated(r: Request, n: nat): (rs: seq<Request>)
    ensures |rs| == n && forall i :: 0 <= i < n ==> rs[i] == r
  {
    if n == 0 then [] else Repeated(r, n - 1) + [r]
  }

  lemma {:induction false} CountAll(rs: seq<Request>, more: seq<Request>, key: string)
    ensures Count(rs + more, key) == Count(rs, key) + Count(more, key)
  {
    hide KeyOf;
    if more == [] {
      assert rs + more == rs;
    } else {
      var n := |more| - 1;
      CountAll(rs, more[..n], key);
      assert rs + more == (rs + more[..n]) + [more[n]];
      CountNext(rs + more[..n], more[n], key);
    }
  }

  lemma {:induction false} CountRepeated(r: Request, n: nat, key: string)
    ensures Count(Repeated(r, n), key) == if KeyOf(r) == key then n else 0
  {
    if n > 0 {
      CountRepeated(r, n - 1, key);
      CountNext(Repeated(r, n - 1), r, key);
    }
  }

  lemma {:induction false} AllWithin(limits: Tier -> nat, requests: seq<Request>, tier: Tier, identity: string, from: nat, a: string, b: string)
    requires forall i :: 0 <= i < |requests| ==> Within(requests[i], tier, identity, from)
    requires a != b
    ensures AllowedWithin(limits, requests, tier, identity, from) >= AllowedUnder(limits, requests, a) + AllowedUnder(limits, requests, b)
  {
    if requests != [] {
      AllWithin(limits, requests[..|requests| - 1], tier, identity, from, a, b);
    }
  }

  lemma WindowEdge(window: nat)
    ensures WindowOf((window + 1) * WINDOW - 1) == window && WindowOf((window + 1) * WINDOW) == window + 1
  {
  }

  lemma LimitReachedTwice(limits: Tier -> nat, tier: Tier, identity: string, window: nat)
    ensures var max := limits(tier); var turn := (window + 1) * WINDOW;
      var requests := Repeated(Request(turn - 1, tier, identity), max) + Repeated(Request(turn, tier, identity), max);
      AllowedWithin(limits, requests, tier, identity, turn - 1) == 2 * max
  {
    hide RedisKey, WindowOf, Count, AllowedUnder, AllowedWithin, Repeated;
    WindowEdge(window);
    var max, turn := limits(tier), (window + 1) * WINDOW;
    var last, first := Request(turn - 1, tier, identity), Request(turn, tier, identity);
    var requests := Repeated(last, max) + Repeated(first, max);
    var a, b := RedisKey(tier, identity, window), RedisKey(tier, identity, window + 1);
    if a == b {
      RedisKeyInjective(tier, identity, window, tier, identity, window + 1);
    }
    CountAll(Repeated(last, max), Repeated(first, max), a);
    CountAll(Repeated(last, max), Repeated(first, max), b);
    CountRepeated(last, max, a);
    CountRepeated(first, max, a);
    CountRepeated(last, max, b);
    CountRepeated(first, max, b);
    FirstOnesFindRoom(limits, requests, tier, identity, window);
    FirstOnesFindRoom(limits, requests, tier, identity, window + 1);
    AllWithin(limits, requests, tier, identity, turn - 1, a, b);
    RoomForTwice(limits, requests, tier, identity, turn - 1);
  }

  // ---------------------------------------------------------------- outcomes of a run

  function PassedUnder(limits: Tier -> nat, calls: seq<Call>, key: string): nat {
    if calls == [] then 0
    else
      var n := |calls| - 1;
      PassedUnder(limits, calls[..n], key) + if KeyOf(calls[n].request) == key && LetThrough(limits, calls, n) then 1 else 0
  }

  function FailedUnder(calls: seq<Call>, key: string): nat {
    if calls == [] then 0
    else
      var n := |calls| - 1;
      FailedUnder(calls[..n], key) + if KeyOf(calls[n].request) == key && calls[n].incrFails then 1 else 0
  }

  lemma RoomIsCounted(limits: Tier -> nat, calls: seq<Call>)
    requires calls != [] && !calls[|calls| - 1].incrFails
    ensures var n := |calls| - 1; var counted := Counted(calls[..n]); var r := calls[n].request;
      && Counted(calls) == counted + [r]
      && (LetThrough(limits, calls, n) <==> AllowedAt(limits, counted + [r], |counted|))
  {
    var n := |calls| - 1;
    var counted, r := Counted(calls[..n]), calls[n].request;
    CountersConsistent(calls[..n]);
    hide Consistent, Count, KeyOf;
    CountedExactly(CountersAfter(calls[..n]), counted, r);
    assert (counted + [r])[..|counted|] == counted;
  }

  lemma {:induction false} PassedIsRoom(limits: Tier -> nat, calls: seq<Call>, key: string)
    ensures PassedUnder(limits, calls, key) == AllowedUnder(limits, Counted(calls), key) + FailedUnder(calls, key)
  {
    if calls != [] {
      hide LetThrough, AllowedAt, KeyOf;
      var n := |calls| - 1;
      PassedIsRoom(limits, calls[..n], key);
      if calls[n].incrFails {
        assert Counted(calls) == Counted(calls[..n]);
        FailureLetsThrough(limits, calls, n);
      } else {
        RoomIsCounted(limits, calls);
        var counted := Counted(calls[..n]);
        assert (counted + [calls[n].request])[..|counted|] == counted;
      }
    }
  }

  lemma FailureLetsThrough(limits: Tier -> nat, calls: seq<Call>, i: nat)
    requires i < |calls| && calls[i].incrFails
    ensures LetThrough(limits, calls, i)
  {
  }

  /**
   Of the requests of one minute exactly the first `max` that are counted get through, and besides them
   those for which Redis failed, whichever EXPIREs are lost.
   */
  lemma FirstOnesAllowed(limits: Tier -> nat, calls: seq<Call>, tier: Tier, identity: string, window: nat)
    ensures var key := RedisKey(tier, identity, window); var n := Count(Counted(calls), key);
      PassedUnder(limits, calls, key) == (if n < limits(tier) then n else limits(tier)) + FailedUnder(calls, key)
  {
    PassedIsRoom(limits, calls, RedisKey(tier, identity, window));
    FirstOnesFindRoom(limits, Counted(calls), tier, identity, window);
  }

  function PassedWithin(limits: Tier -> nat, calls: seq<Call>, tier: Tier, identity: string, from: nat): nat {
    if calls == [] then 0
    else
      var n := |calls| - 1;
      PassedWithin(limits, calls[..n], tier, identity, from)
      + if Within(calls[n].request, tier, identity, from) && LetThrough(limits, calls, n) then 1 else 0
  }

  function FailedWithin(calls: seq<Call>, tier: Tier, identity: string, from: nat): nat {
    if calls == [] then 0
    else
      var n := |calls| - 1;
      FailedWithin(calls[..n], tier, identity, from)
      + if Within(calls[n].request, tier, identity, from) && calls[n].incrFails then 1 else 0
  }

  lemma {:induction false} PassedWithinIsRoom(limits: Tier -> nat, calls: seq<Call>, tier: Tier, identity: string, from: nat)
    ensures PassedWithin(limits, calls, tier, identity, from)
         == AllowedWithin(limits, Counted(calls), tier, identity, from) + FailedWithin(calls, tier, identity, from)
  {
    if calls != [] {
      hide LetThrough, AllowedAt, KeyOf, Within;
      var n := |calls| - 1;
      PassedWithinIsRoom(limits, calls[..n], tier, identity, from);
      if calls[n].incrFails {
        assert Counted(calls) == Counted(calls[..n]);
        FailureLetsThrough(limits, calls, n);
      } else {
        RoomIsCounted(limits, calls);
        var counted := Counted(calls[..n]);
        assert (counted + [calls[n].request])[..|counted|] == counted;
      }
    }
  }

  /** In any 60 seconds at most twice the limit gets through, and what Redis failed to count. */
  lemma TwiceTheLimit(limits: Tier -> nat, calls: seq<Call>, tier: Tier, identity: string, from: nat)
    ensures PassedWithin(limits, calls, tier, identity, from) <= 2 * limits(tier) + FailedWithin(calls, tier, identity, from)
  {
    PassedWithinIsRoom(limits, calls, tier, identity, from);
    RoomForTwice(limits, Counted(calls), tier, identity, from);
  }

  /** Redis at its best. */
  function Calls(requests: seq<Request>): (calls: seq<Call>)
    ensures |calls| == |requests|
  {
    seq(|requests|, i requires 0 <= i < |requests| => Call(requests[i], false, false))
  }

  lemma {:induction false} CallsCounted(requests: seq<Request>, tier: Tier, identity: string, from: nat)
    ensures Counted(Calls(requests)) == requests && FailedWithin(Calls(requests), tier, identity, from) == 0
  {
    if requests != [] {
      var n := |requests| - 1;
      CallsCounted(requests[..n], tier, identity, from);
      assert Calls(requests)[..n] == Calls(requests[..n]);
      assert requests[..n] + [requests[n]] == requests;
    }
  }

  lemma PassedWithoutFailures(limits: Tier -> nat, requests: seq<Request>, tier: Tier, identity: string, from: nat)
    ensures PassedWithin(limits, Calls(requests), tier, identity, from) == AllowedWithin(limits, requests, tier, identity, from)
  {
    hide AllowedWithin, PassedWithin, FailedWithin, Counted, Calls;
    CallsCounted(requests, tier, identity, from);
    PassedWithinIsRoom(limits, Calls(requests), tier, identity, from);
  }

  /** The bound is reached, without any failure: at the end of one minute and again at the start of the next. */
  lemma TwiceTheLimitIsReached(limits: Tier -> nat, tier: Tier, identity: string, window: nat)
    ensures var max := limits(tier); var turn := (window + 1) * WINDOW;
      var requests := Repeated(Request(turn - 1, tier, identity), max) + Repeated(Request(turn, tier, identity), max);
      PassedWithin(limits, Calls(requests), tier, identity, turn - 1) == 2 * max
  {
    hide AllowedWithin, PassedWithin, FailedWithin, Counted, Calls, Repeated;
    LimitReachedTwice(limits, tier, identity, window);
    var turn := (window + 1) * WINDOW;
    PassedWithoutFailures(limits, Repeated(Request(turn - 1, tier, identity), limits(tier)) + Repeated(Request(turn, tier, identity), limits(tier)),
                          tier, identity, turn - 1);
  }
}
