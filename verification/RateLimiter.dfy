/**
 The fixed-window rate limiter: one counter per key in Redis, incremented by every
 request and given its expiry by the request that starts it.
 */
module RateLimiter {
  import opened Prelude

  datatype Counter = Counter(count: int, expiresAt: Option<int>)
  type Store = map<string, Counter>

  predicate Present(store: Store, key: string, now: int) {
    key in store && (store[key].expiresAt.Some? ==> now < store[key].expiresAt.value)
  }

  /** The counter after a request. */
  function Hit(store: Store, key: string, window: int, now: int): Counter {
    if Present(store, key, now)
    then if store[key].count == 0 then Counter(1, Some(now + window)) else store[key].(count := store[key].count + 1)
    else Counter(1, Some(now + window))
  }

  class RedisService {
    const connected: bool
    var store: Store

    constructor (connected: bool)
      ensures this.connected == connected && store == map[]
    {
      this.connected := connected;
      store := map[];
    }

    /** INCR: an expired key counts as absent, and a new key has no expiry. */
    method Incr(key: string, now: int) returns (count: int)
      modifies this`store
      ensures count == if Present(old(store), key, now) then old(store)[key].count + 1 else 1
      ensures store == old(store)[key := Counter(count, if Present(old(store), key, now) then old(store)[key].expiresAt else None)]
    {
      if Present(store, key, now) {
        count := store[key].count + 1;
        store := store[key := store[key].(count := count)];
      } else {
        count := 1;
        store := store[key := Counter(1, None)];
      }
    }

    method Allow(key: string, limit: int, window: int, now: int) returns (allowed: bool)
      modifies this`store
      ensures !connected || limit <= 0 ==> allowed && store == old(store)
      ensures connected && limit > 0 ==>
        && store == old(store)[key := Hit(old(store), key, window, now)]
        && (allowed <==> store[key].count <= limit)
    {
      if !connected || limit <= 0 {
        return true;
      }
      var count := Incr(key, now);
      if count == 1 {
        store := store[key := store[key].(expiresAt := Some(now + window))];
      }
      return count <= limit;
    }
  }

  // ----------------------------------------------------------------- traces

  datatype Request = Request(key: string, now: int)

  /** The clock does not run backwards. */
  ghost predicate Ordered(trace: seq<Request>) {
    forall i, j :: 0 <= i < j < |trace| ==> trace[i].now <= trace[j].now
  }

  function After(trace: seq<Request>, window: int): Store {
    if trace == [] then map[]
    else
      var before := After(trace[..|trace| - 1], window);
      var r := trace[|trace| - 1];
      before[r.key := Hit(before, r.key, window, r.now)]
  }

  /** When the requests on `key` that were let through arrived. */
  function Admitted(trace: seq<Request>, key: string, limit: int, window: int): seq<int> {
    if trace == [] then []
    else
      var before := Admitted(trace[..|trace| - 1], key, limit, window);
      var r := trace[|trace| - 1];
      if r.key == key && After(trace, window)[key].count <= limit then before + [r.now] else before
  }

  /** How many of the times fall in [from, to). */
  function Count(times: seq<int>, from: int, to: int): nat {
    if times == [] then 0
    else
      var t := times[|times| - 1];
      Count(times[..|times| - 1], from, to) + (if from <= t < to then 1 else 0)
  }

  /** The times of all requests on the key. */
  function Asked(trace: seq<Request>, key: string): seq<int> {
    if trace == [] then []
    else
      var before := Asked(trace[..|trace| - 1], key);
      var r := trace[|trace| - 1];
      if r.key == key then before + [r.now] else before
  }

  /** Where the window that holds the last request starts: a request opens a window
      when none is open. */
  function WindowStart(times: seq<int>, window: int): int
    requires times != []
  {
    var now := times[|times| - 1];
    if |times| == 1 then now
    else
      var start := WindowStart(times[..|times| - 1], window);
      if now < start + window then start else now
  }

  /** How many fall within one window length from `from` on. */
  function InSpan(times: seq<int>, from: int, window: int): nat {
    Count(times, from, from + window)
  }

  lemma {:induction false} CountSnoc(times: seq<int>, t: int, from: int, to: int)
    ensures Count(times + [t], from, to) == Count(times, from, to) + (if from <= t < to then 1 else 0)
  {
    assert (times + [t])[..|times|] == times;
  }

  lemma {:induction false} CountSplits(times: seq<int>, from: int, mid: int, to: int)
    requires from <= mid <= to
    ensures Count(times, from, to) == Count(times, from, mid) + Count(times, mid, to)
  {
    if times != [] {
      CountSplits(times[..|times| - 1], from, mid, to);
    }
  }

  lemma {:induction false} CountWithin(times: seq<int>, from: int, to: int, from': int, to': int)
    requires from' <= from && to <= to'
    ensures Count(times, from, to) <= Count(times, from', to')
  {
    if times != [] {
      CountWithin(times[..|times| - 1], from, to, from', to');
    }
  }

  lemma {:induction false} CountNone(times: seq<int>, from: int, to: int)
    requires forall i :: 0 <= i < |times| ==> !(from <= times[i] < to)
    ensures Count(times, from, to) == 0
  {
    if times != [] {
      CountNone(times[..|times| - 1], from, to);
    }
  }

  lemma {:induction false} CountMember(times: seq<int>, t: int)
    requires t in times
    ensures Count(times, t, t + 1) >= 1
  {
    var last := |times| - 1;
    if times[last] != t {
      assert t in times[..last];
      CountMember(times[..last], t);
    }
  }

  // ------------------------------------------------------------- invariant

  predicate Below(times: seq<int>, bound: int) {
    forall i :: 0 <= i < |times| ==> times[i] < bound
  }

  /** The key's counter against its history: the open window started with a request
      that was let through, the counter holds the requests since then, and what was
      let through during the last `window` before it leaves out an opener. */
  ghost predicate KeyInv(c: Counter, asked: seq<int>, admitted: seq<int>, limit: int, window: int) {
    && asked != [] && c.count >= 1
    && var start := WindowStart(asked, window);
    && c.expiresAt == Some(start + window)
    && start in admitted
    && Below(asked, start + window) && Below(admitted, start + window)
    && Count(asked, start, start + window) == c.count
    && Count(admitted, start, start + window) == (if c.count <= limit then c.count else limit)
    && (forall lo :: start - window < lo <= start ==> Count(admitted, lo, start) < limit)
    && (forall lo :: InSpan(admitted, lo, window) < 2 * limit)
  }

  ghost predicate TraceInv(trace: seq<Request>, key: string, limit: int, window: int) {
    if key in After(trace, window)
    then KeyInv(After(trace, window)[key], Asked(trace, key), Admitted(trace, key, limit, window), limit, window)
    else Asked(trace, key) == [] && Admitted(trace, key, limit, window) == []
  }

  /** A request inside the open window. */
  lemma {:induction false} WindowContinues(c: Counter, asked: seq<int>, admitted: seq<int>, limit: int, window: int, now: int)
    requires limit > 0 && KeyInv(c, asked, admitted, limit, window)
    requires WindowStart(asked, window) <= now < WindowStart(asked, window) + window
    ensures var c' := c.(count := c.count + 1);
      KeyInv(c', asked + [now], if c'.count <= limit then admitted + [now] else admitted, limit, window)
  {
    var start := WindowStart(asked, window);
    assert (asked + [now])[..|asked|] == asked;
    CountSnoc(asked, now, start, start + window);
    if c.count < limit {
      var admitted' := admitted + [now];
      CountSnoc(admitted, now, start, start + window);
      forall lo ensures start - window < lo <= start ==> Count(admitted', lo, start) < limit {
        CountSnoc(admitted, now, lo, start);
      }
      forall lo ensures InSpan(admitted', lo, window) < 2 * limit {
        SpanStaysBounded(admitted, limit, window, start, now, lo);
      }
    }
  }

  /** A span that the new request falls in either lies in the open window or holds
      at most limit - 1 from before it. */
  lemma SpanStaysBounded(admitted: seq<int>, limit: int, window: int, start: int, now: int, lo: int)
    requires start <= now < start + window
    requires Below(admitted, start + window)
    requires Count(admitted, start, start + window) < limit
    requires start - window < lo <= start ==> Count(admitted, lo, start) < limit
    requires InSpan(admitted, lo, window) < 2 * limit
    ensures InSpan(admitted + [now], lo, window) < 2 * limit
  {
    CountSnoc(admitted, now, lo, lo + window);
    if lo >= start + window {
      CountNone(admitted, lo, lo + window);
    } else if lo > start {
      CountSplits(admitted, lo, start + window, lo + window);
      CountNone(admitted, start + window, lo + window);
      CountWithin(admitted, lo, start + window, start, start + window);
    } else if start < lo + window {
      CountSplits(admitted, lo, start, lo + window);
      CountWithin(admitted, start, lo + window, start, start + window);
    }
  }

  /** A request after the open window: all but the opener's predecessors count
      against a span that reaches into the new one. */
  lemma {:induction false} WindowOpens(c: Counter, asked: seq<int>, admitted: seq<int>, limit: int, window: int, now: int)
    requires limit > 0 && window > 0 && KeyInv(c, asked, admitted, limit, window)
    requires now >= WindowStart(asked, window) + window
    ensures KeyInv(Counter(1, Some(now + window)), asked + [now], admitted + [now], limit, window)
  {
    var start := WindowStart(asked, window);
    assert (asked + [now])[..|asked|] == asked;
    var admitted' := admitted + [now];
    FirstOfWindow(asked, now, window);
    FirstOfWindow(admitted, now, window);
    forall lo ensures now - window < lo <= now ==> Count(admitted', lo, now) < limit {
      CountSnoc(admitted, now, lo, now);
      if now - window < lo <= now {
        LeavesOutOpener(admitted, limit, window, start, lo, now);
      }
    }
    forall lo ensures InSpan(admitted', lo, window) < 2 * limit {
      CountSnoc(admitted, now, lo, lo + window);
      assert InSpan(admitted, lo, window) < 2 * limit;
      if lo <= now < lo + window {
        LeavesOutOpener(admitted, limit, window, start, lo, lo + window);
      }
    }
  }

  lemma FirstOfWindow(times: seq<int>, now: int, window: int)
    requires window > 0 && Below(times, now)
    ensures Count(times + [now], now, now + window) == 1
  {
    CountSnoc(times, now, now, now + window);
    CountNone(times, now, now + window);
  }

  lemma LeavesOutOpener(admitted: seq<int>, limit: int, window: int, start: int, lo: int, hi: int)
    requires start in admitted && start < lo <= hi && start + window <= hi
    requires Below(admitted, start + window)
    requires Count(admitted, start, start + window) <= limit
    ensures Count(admitted, lo, hi) < limit
  {
    CountMember(admitted, start);
    CountSplits(admitted, start, start + 1, hi);
    CountWithin(admitted, lo, hi, start + 1, hi);
    CountSplits(admitted, start, start + window, hi);
    CountNone(admitted, start + window, hi);
  }

  lemma {:induction false} CountOne(t: int, from: int, to: int)
    ensures Count([t], from, to) == if from <= t < to then 1 else 0
  {
    assert [t][..0] == [];
  }

  lemma {:induction false} FirstRequest(limit: int, window: int, now: int)
    requires limit > 0 && window > 0
    ensures KeyInv(Counter(1, Some(now + window)), [now], [now], limit, window)
  {
    var times := [now];
    CountOne(now, now, now + window);
    forall lo ensures Count(times, lo, now) == 0 {
      CountOne(now, lo, now);
    }
    forall lo ensures InSpan(times, lo, window) <= 1 {
      CountOne(now, lo, lo + window);
    }
  }

  lemma {:induction false} StartNotLater(times: seq<int>, window: int)
    requires times != []
    ensures WindowStart(times, window) in times
  {
    if |times| > 1 {
      StartNotLater(times[..|times| - 1], window);
    }
  }

  lemma {:induction false} TraceInvAlways(trace: seq<Request>, key: string, limit: int, window: int)
    requires limit > 0 && window > 0 && Ordered(trace)
    ensures TraceInv(trace, key, limit, window)
  {
    if trace != [] {
      var before, r := trace[..|trace| - 1], trace[|trace| - 1];
      assert Ordered(before);
      TraceInvAlways(before, key, limit, window);
      assert before + [r] == trace;
      OneMore(before, r, key, limit, window);
      if r.key == key {
        if key in After(before, window) {
          AskedBefore(before, key);
          StartNotLater(Asked(before, key), window);
        }
        HitKeepsInv(After(before, window), key, Asked(before, key), Admitted(before, key, limit, window), limit, window, r.now);
      }
    }
  }

  lemma {:induction false} AskedBefore(trace: seq<Request>, key: string)
    requires Ordered(trace)
    ensures forall t :: t in Asked(trace, key) ==> trace != [] && t <= trace[|trace| - 1].now
  {
    if trace != [] {
      AskedBefore(trace[..|trace| - 1], key);
    }
  }

  lemma {:induction false} HitKeepsInv(store: Store, key: string, asked: seq<int>, admitted: seq<int>, limit: int, window: int, now: int)
    requires limit > 0 && window > 0
    requires if key in store then KeyInv(store[key], asked, admitted, limit, window) && WindowStart(asked, window) <= now
             else asked == admitted == []
    ensures var c := Hit(store, key, window, now);
      KeyInv(c, asked + [now], if c.count <= limit then admitted + [now] else admitted, limit, window)
  {
    if key !in store {
      assert [] + [now] == [now];
      FirstRequest(limit, window, now);
    } else if Present(store, key, now) {
      WindowContinues(store[key], asked, admitted, limit, window, now);
    } else {
      WindowOpens(store[key], asked, admitted, limit, window, now);
    }
  }

  lemma {:induction false} OneMore(trace: seq<Request>, r: Request, key: string, limit: int, window: int)
    ensures var store := After(trace, window); var hit := Hit(store, r.key, window, r.now);
      && After(trace + [r], window) == store[r.key := hit]
      && Asked(trace + [r], key) == (if r.key == key then Asked(trace, key) + [r.now] else Asked(trace, key))
      && Admitted(trace + [r], key, limit, window)
         == (if r.key == key && hit.count <= limit then Admitted(trace, key, limit, window) + [r.now]
             else Admitted(trace, key, limit, window))
  {
    assert (trace + [r])[..|trace|] == trace;
  }

  // ---------------------------------------------------------- main results

  /** A request is let through exactly when fewer than `limit` requests on its key,
      let through or not, came before it in its window. */
  lemma {:induction false} AdmissionIsExact(trace: seq<Request>, r: Request, limit: int, window: int)
    requires limit > 0 && window > 0 && Ordered(trace + [r])
    ensures var start := WindowStart(Asked(trace + [r], r.key), window);
      && start <= r.now < start + window
      && (Admitted(trace + [r], r.key, limit, window)
          == if Count(Asked(trace, r.key), start, start + window) < limit
             then Admitted(trace, r.key, limit, window) + [r.now] else Admitted(trace, r.key, limit, window))
  {
    var longer := trace + [r];
    TraceInvAlways(longer, r.key, limit, window);
    OneMore(trace, r, r.key, limit, window);
    var asked := Asked(longer, r.key);
    var start := WindowStart(asked, window);
    AskedBefore(longer, r.key);
    StartNotLater(asked, window);
    assert asked[|asked| - 1] == r.now;
    CountSnoc(Asked(trace, r.key), r.now, start, start + window);
  }

  /** At most `limit` per window, and at most 2 * limit - 1 in any half-open
      interval as long as a window, wherever it lies. */
  lemma {:induction false} AdmissionIsBounded(trace: seq<Request>, key: string, limit: int, window: int, from: int)
    requires limit > 0 && Ordered(trace)
    ensures Count(Admitted(trace, key, limit, window), from, from + window) <= 2 * limit - 1
    ensures Asked(trace, key) != [] && window > 0 ==>
      var start := WindowStart(Asked(trace, key), window);
      Count(Admitted(trace, key, limit, window), start, start + window) <= limit
  {
    if window <= 0 {
      CountNone(Admitted(trace, key, limit, window), from, from + window);
    } else {
      TraceInvAlways(trace, key, limit, window);
      CountNone([], from, from + window);
      assert InSpan(Admitted(trace, key, limit, window), from, window)
          == Count(Admitted(trace, key, limit, window), from, from + window);
    }
  }

  /** A request that meets an open window, let through or rejected, leaves its end
      where it was; requests on other keys leave the whole counter. */
  lemma {:induction false} WindowsAreNeverLengthened(trace: seq<Request>, r: Request, key: string, limit: int, window: int)
    requires limit > 0 && window > 0 && Ordered(trace + [r]) && key in After(trace, window)
    ensures var c := After(trace, window)[key]; var c' := After(trace + [r], window)[key];
      && (r.key != key ==> c' == c)
      && (r.key == key && c.expiresAt.Some? && r.now < c.expiresAt.value ==> c' == Counter(c.count + 1, c.expiresAt))
  {
    assert Ordered(trace) by {
      assert forall i :: 0 <= i < |trace| ==> (trace + [r])[i] == trace[i];
    }
    TraceInvAlways(trace, key, limit, window);
    OneMore(trace, r, key, limit, window);
  }

  // ---------------------------------------------------- the bound is exact

  function Burst(key: string, now: int, n: nat): (b: seq<Request>)
    ensures |b| == n && forall i :: 0 <= i < n ==> b[i] == Request(key, now)
  {
    seq(n, i => Request(key, now))
  }

  /** Requests at one moment of an open window with room for them all. */
  lemma {:induction false} BurstIsAdmitted(trace: seq<Request>, key: string, now: int, n: nat, limit: int, window: int, from: int, to: int)
    requires key in After(trace, window)
    requires var c := After(trace, window)[key];
      c.count >= 1 && c.expiresAt.Some? && now < c.expiresAt.value && c.count + n <= limit
    ensures var longer := trace + Burst(key, now, n); var c := After(trace, window)[key];
      && key in After(longer, window) && After(longer, window)[key] == c.(count := c.count + n)
      && Count(Admitted(longer, key, limit, window), from, to)
         == Count(Admitted(trace, key, limit, window), from, to) + (if from <= now < to then n else 0)
  {
    if n == 0 {
      assert trace + Burst(key, now, 0) == trace;
    } else {
      BurstIsAdmitted(trace, key, now, n - 1, limit, window, from, to);
      var shorter := trace + Burst(key, now, n - 1);
      BurstSnoc(trace, key, now, n);
      OneMoreAdmitted(shorter, key, now, limit, window, from, to);
    }
  }

  lemma BurstSnoc(trace: seq<Request>, key: string, now: int, n: nat)
    requires n > 0
    ensures trace + Burst(key, now, n) == trace + Burst(key, now, n - 1) + [Request(key, now)]
  {
  }

  lemma {:induction false} OneMoreAdmitted(trace: seq<Request>, key: string, now: int, limit: int, window: int, from: int, to: int)
    requires key in After(trace, window)
    requires var c := After(trace, window)[key];
      1 <= c.count < limit && c.expiresAt.Some? && now < c.expiresAt.value
    ensures var longer := trace + [Request(key, now)]; var c := After(trace, window)[key];
      && key in After(longer, window) && After(longer, window)[key] == c.(count := c.count + 1)
      && Count(Admitted(longer, key, limit, window), from, to)
         == Count(Admitted(trace, key, limit, window), from, to) + (if from <= now < to then 1 else 0)
  {
    OneMore(trace, Request(key, now), key, limit, window);
    CountSnoc(Admitted(trace, key, limit, window), now, from, to);
  }

  /** A request that opens a window, with limit - 1 right behind it. */
  lemma {:induction false} FullWindow(trace: seq<Request>, key: string, opening: int, rest: int, limit: int, window: int, from: int, to: int)
    requires limit > 0 && opening <= rest < opening + window
    requires key in After(trace, window) ==> !Present(After(trace, window), key, opening)
    ensures var longer := trace + [Request(key, opening)] + Burst(key, rest, limit - 1);
      && key in After(longer, window) && After(longer, window)[key] == Counter(limit, Some(opening + window))
      && Count(Admitted(longer, key, limit, window), from, to)
         == Count(Admitted(trace, key, limit, window), from, to)
            + (if from <= opening < to then 1 else 0) + (if from <= rest < to then limit - 1 else 0)
  {
    OneMore(trace, Request(key, opening), key, limit, window);
    CountSnoc(Admitted(trace, key, limit, window), opening, from, to);
    BurstIsAdmitted(trace + [Request(key, opening)], key, rest, limit - 1, limit, window, from, to);
  }

  function BusyTrace(key: string, limit: int, window: int): seq<Request>
    requires limit > 0
  {
    [Request(key, 0)] + Burst(key, window - 1, limit - 1) + [Request(key, window)] + Burst(key, window, limit - 1)
  }

  lemma BusyTraceIsOrdered(key: string, limit: int, window: int)
    requires limit > 0 && window > 1
    ensures Ordered(BusyTrace(key, limit, window))
  {
    var trace := BusyTrace(key, limit, window);
    assert forall i :: 0 <= i < |trace| ==>
      trace[i].now == if i == 0 then 0 else if i < limit then window - 1 else window;
  }

  /** One request, limit - 1 more just before its window closes, limit more as soon
      as it has: the last 2 * limit - 1 are all let through within one window's
      length, whatever the limit. */
  lemma {:induction false} BoundIsReached(key: string, limit: int, window: int)
    requires limit > 0 && window > 1
    ensures var trace := BusyTrace(key, limit, window);
      Ordered(trace) && Count(Admitted(trace, key, limit, window), window - 1, window - 1 + window) == 2 * limit - 1
  {
    BusyTraceIsOrdered(key, limit, window);
    FullWindow([], key, 0, window - 1, limit, window, window - 1, window - 1 + window);
    var half := [] + [Request(key, 0)] + Burst(key, window - 1, limit - 1);
    assert half + [Request(key, window)] + Burst(key, window, limit - 1) == BusyTrace(key, limit, window);
    FullWindow(half, key, window, window, limit, window, window - 1, window - 1 + window);
  }
}
