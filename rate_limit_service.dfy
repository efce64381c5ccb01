/** The in-memory chat rate limiter (backend/src/services/rateLimitService.ts):
    a fixed one-minute window per user, at most ten requests in it. Time is
    passed in as `now`, in milliseconds. */
module RateLimitService {
  import opened Wrappers

  const MAX_REQUESTS_PER_MINUTE: int := 10
  const WINDOW_MS: int := 60 * 1000

  datatype RateLimitData = RateLimitData(count: int, resetAt: int)

  /** What `checkRateLimit` returns. */
  datatype Decision = Decision(allowed: bool, remaining: int, resetAt: int)

  /** What `getRateLimitInfo` returns; `resetAt` is `null` when no window is open. */
  datatype RateInfo = RateInfo(remaining: int, resetAt: Option<int>)

  /** A check's decision together with the store it leaves behind. */
  datatype CheckStep = CheckStep(decision: Decision, store: map<string, RateLimitData>)

  /** Every stored window has seen between one and ten requests. */
  ghost predicate CountsInRange(store: map<string, RateLimitData>) {
    forall u :: u in store ==> 1 <= store[u].count <= MAX_REQUESTS_PER_MINUTE
  }

  /** A window is open for `userId` at `now`: an entry whose `resetAt` is not
      before `now`. */
  predicate WindowOpen(store: map<string, RateLimitData>, userId: string, now: int) {
    userId in store && !(store[userId].resetAt < now)
  }

  /** `checkRateLimit(userId)` at instant `now`. No open window: a new one
      starts with count 1, resetting a minute from now, and the request is
      allowed with 9 left. A full window: denied, nothing changes. Otherwise
      the count goes up by one and the request is allowed. Other users'
      entries are never touched, and counts stay within 1..10. */
  function CheckTransition(store: map<string, RateLimitData>, userId: string, now: int): (s: CheckStep)
    ensures !WindowOpen(store, userId, now) ==>
      && s.decision == Decision(true, MAX_REQUESTS_PER_MINUTE - 1, now + WINDOW_MS)
      && s.store == store[userId := RateLimitData(1, now + WINDOW_MS)]
    ensures WindowOpen(store, userId, now) && store[userId].count >= MAX_REQUESTS_PER_MINUTE ==>
      && s.decision == Decision(false, 0, store[userId].resetAt)
      && s.store == store
    ensures WindowOpen(store, userId, now) && store[userId].count < MAX_REQUESTS_PER_MINUTE ==>
      && s.decision.allowed
      && s.store == store[userId := RateLimitData(store[userId].count + 1, store[userId].resetAt)]
      && s.decision.remaining == MAX_REQUESTS_PER_MINUTE - s.store[userId].count
      && s.decision.resetAt == store[userId].resetAt
    ensures forall u :: u != userId ==> (u in s.store <==> u in store) && (u in store ==> s.store[u] == store[u])
    ensures CountsInRange(store) ==> CountsInRange(s.store)
  {
    if !WindowOpen(store, userId, now) then
      var resetAt := now + WINDOW_MS;
      CheckStep(Decision(true, MAX_REQUESTS_PER_MINUTE - 1, resetAt), store[userId := RateLimitData(1, resetAt)])
    else if store[userId].count >= MAX_REQUESTS_PER_MINUTE then
      CheckStep(Decision(false, 0, store[userId].resetAt), store)
    else
      var data := RateLimitData(store[userId].count + 1, store[userId].resetAt);
      CheckStep(Decision(true, MAX_REQUESTS_PER_MINUTE - data.count, data.resetAt), store[userId := data])
  }

  /** The periodic sweep: exactly the windows with `resetAt < now` go. */
  function Swept(store: map<string, RateLimitData>, now: int): (m: map<string, RateLimitData>)
    ensures forall u :: u in m <==> u in store && !(store[u].resetAt < now)
    ensures forall u :: u in m ==> m[u] == store[u]
  {
    map u | u in store && !(store[u].resetAt < now) :: store[u]
  }

  /** The module-level `rateLimitStore` map. */
  class RateLimiter {
    var store: map<string, RateLimitData>

    ghost predicate Valid()
      reads this
    {
      CountsInRange(store)
    }

    constructor ()
      ensures Valid() && store == map[]
    {
      store := map[];
    }

    method CheckRateLimit(userId: string, now: int) returns (d: Decision)
      requires Valid()
      modifies this
      ensures Valid()
      ensures CheckStep(d, store) == CheckTransition(old(store), userId, now)
    {
      if userId !in store || store[userId].resetAt < now {
        var resetAt := now + WINDOW_MS;
        store := store[userId := RateLimitData(1, resetAt)];
        return Decision(true, MAX_REQUESTS_PER_MINUTE - 1, resetAt);
      }
      var data := store[userId];
      if data.count >= MAX_REQUESTS_PER_MINUTE {
        return Decision(false, 0, data.resetAt);
      }
      data := data.(count := data.count + 1);
      store := store[userId := data];
      return Decision(true, MAX_REQUESTS_PER_MINUTE - data.count, data.resetAt);
    }

    /** `getRateLimitInfo(userId)`: read-only. With no open window, the full
      allowance and no reset instant; otherwise what is left of the
      allowance and the window's reset instant. */
    method GetRateLimitInfo(userId: string, now: int) returns (info: RateInfo)
      requires Valid()
      ensures !WindowOpen(store, userId, now) ==> info == RateInfo(MAX_REQUESTS_PER_MINUTE, None)
      ensures WindowOpen(store, userId, now) ==>
        info == RateInfo(MAX_REQUESTS_PER_MINUTE - store[userId].count, Some(store[userId].resetAt))
      ensures 0 <= info.remaining <= MAX_REQUESTS_PER_MINUTE
    {
      if userId !in store || store[userId].resetAt < now {
        return RateInfo(MAX_REQUESTS_PER_MINUTE, None);
      }
      var data := store[userId];
      return RateInfo(MAX_REQUESTS_PER_MINUTE - data.count, Some(data.resetAt));
    }

    /** The `setInterval` sweep, run at instant `now`. */
    method SweepExpired(now: int)
      requires Valid()
      modifies this
      ensures Valid()
      ensures store == Swept(old(store), now)
    {
      var pending := store.Keys;
      while pending != {}
        invariant pending <= old(store).Keys
        invariant forall u :: u in store <==>
          u in old(store) && (u in pending || !(old(store)[u].resetAt < now))
        invariant forall u :: u in store ==> store[u] == old(store)[u]
        decreases pending
      {
        var u :| u in pending;
        if store[u].resetAt < now {
          store := store - {u};
        }
        pending := pending - {u};
      }
    }
  }

  // Several requests by one user, one after another.

  /** The decisions for requests by `userId` at the instants `times`, in order,
      and the store left behind. */
  datatype Run = Run(decisions: seq<Decision>, store: map<string, RateLimitData>)

  function RunChecks(store: map<string, RateLimitData>, userId: string, times: seq<int>): (r: Run)
    ensures |r.decisions| == |times|
    decreases |times|
  {
    if times == [] then Run([], store)
    else
      var s := CheckTransition(store, userId, times[0]);
      var rest := RunChecks(s.store, userId, times[1..]);
      Run([s.decision] + rest.decisions, rest.store)
  }

  /** Inside an open window that has seen `c` requests, the i-th further
      request (counting from 0) is allowed exactly when c + i < 10, every
      reply carries the window's unchanged reset instant, and the count
      climbs to at most 10. */
  lemma {:induction false} WithinOpenWindow(store: map<string, RateLimitData>, userId: string, times: seq<int>)
    requires userId in store && 1 <= store[userId].count <= MAX_REQUESTS_PER_MINUTE
    requires forall i :: 0 <= i < |times| ==> times[i] <= store[userId].resetAt
    ensures var r := RunChecks(store, userId, times);
      var c := store[userId].count;
      && (forall i :: 0 <= i < |times| ==>
            && (r.decisions[i].allowed <==> c + i < MAX_REQUESTS_PER_MINUTE)
            && r.decisions[i].resetAt == store[userId].resetAt
            && r.decisions[i].remaining == (if c + i < MAX_REQUESTS_PER_MINUTE then MAX_REQUESTS_PER_MINUTE - (c + i + 1) else 0))
      && userId in r.store
      && r.store[userId] == RateLimitData(Min(c + |times|, MAX_REQUESTS_PER_MINUTE), store[userId].resetAt)
    decreases |times|
  {
    if times != [] {
      var s := CheckTransition(store, userId, times[0]);
      assert WindowOpen(store, userId, times[0]);
      WithinOpenWindow(s.store, userId, times[1..]);
      var r := RunChecks(store, userId, times);
      var rest := RunChecks(s.store, userId, times[1..]);
      assert r.decisions == [s.decision] + rest.decisions;
      forall i | 0 < i < |times|
        ensures r.decisions[i] == rest.decisions[i - 1]
      {
      }
    }
  }

  function Min(a: int, b: int): int {
    if a < b then a else b
  }

  /** A fresh window admits exactly ten requests: when the first request finds
      no open window and every later one comes no later than a minute after it,
      the first ten are allowed and all the rest are denied with the same
      reset instant. */
  lemma ExactlyTenPerWindow(store: map<string, RateLimitData>, userId: string, times: seq<int>)
    requires |times| >= 1 && !WindowOpen(store, userId, times[0])
    requires forall i :: 0 <= i < |times| ==> times[i] <= times[0] + WINDOW_MS
    ensures var r := RunChecks(store, userId, times);
      forall i :: 0 <= i < |times| ==>
        && (r.decisions[i].allowed <==> i < MAX_REQUESTS_PER_MINUTE)
        && r.decisions[i].resetAt == times[0] + WINDOW_MS
  {
    var s := CheckTransition(store, userId, times[0]);
    WithinOpenWindow(s.store, userId, times[1..]);
    var r := RunChecks(store, userId, times);
    var rest := RunChecks(s.store, userId, times[1..]);
    forall i | 0 < i < |times|
      ensures r.decisions[i] == rest.decisions[i - 1]
    {
    }
  }

  /** Requests of one user leave every other user's window as it was. */
  lemma RunIsolated(store: map<string, RateLimitData>, userId: string, times: seq<int>, other: string)
    requires other != userId
    ensures var r := RunChecks(store, userId, times);
      (other in r.store <==> other in store) && (other in store ==> r.store[other] == store[other])
    decreases |times|
  {
    if times != [] {
      RunIsolated(CheckTransition(store, userId, times[0]).store, userId, times[1..], other);
    }
  }
}
