/**
 The gateway's request limiter: one expiring counter a client key. INCR keeps the expiry of a live key and starts
 a gone one from zero; the request that starts it sets the window.
 */
module Gateway {
  import opened Worlds

  type Key = string

  /** A request of a client; without Redis the limiter fails open. */
  datatype Request = Request(key: Key, at: nat, redisUp: bool)

  type Counters = map<Key, Entry<nat>>

  function CountOf(m: Counters, k: Key, now: nat): nat {
    if Live(m, k, now) then m[k].value else 0
  }

  function Incremented(m: Counters, r: Request, window: nat): Counters {
    var count := CountOf(m, r.key, r.at) + 1;
    if !r.redisUp then m else m[r.key := Entry(count, if count == 1 then r.at + window else m[r.key].expiry)]
  }

  predicate Passes(m: Counters, r: Request, limit: int) {
    !r.redisUp || CountOf(m, r.key, r.at) + 1 <= limit
  }

  /** The counters after a sequence of requests. */
  ghost function After(log: seq<Request>, window: nat): Counters {
    if log == [] then map[] else Incremented(After(log[..|log| - 1], window), log[|log| - 1], window)
  }

  class RateLimiter {
    const limit: int
    const window: nat
    var counters: Counters
    ghost var log: seq<Request>

    ghost predicate Valid()
      reads this
    {
      counters == After(log, window)
    }

    constructor (limit: int, window: nat)
      ensures Valid() && log == [] && this.limit == limit && this.window == window
    {
      this.limit, this.window := limit, window;
      counters := map[];
      log := [];
    }

    method Handle(r: Request) returns (pass: bool)
      requires Valid()
      modifies this
      ensures Valid() && log == old(log) + [r]
      ensures pass == Passes(After(old(log), window), r, limit)
    {
      assert (log + [r])[..|log|] == log;
      log := log + [r];
      if !r.redisUp {
        return true;
      }
      var count := CountOf(counters, r.key, r.at) + 1;
      var expiry := if count == 1 then 0 else counters[r.key].expiry;
      if count == 1 {
        expiry := r.at + window;
      }
      counters := counters[r.key := Entry(count, expiry)];
      if count > limit {
        return false;
      }
      pass := true;
    }
  }

  ghost predicate InOrder(log: seq<Request>) {
    forall i, j :: 0 <= i < j < |log| ==> log[i].at <= log[j].at
  }

  /** Requests of k that Redis counted and that were passed on between lo and hi, both included. */
  ghost function Passed(log: seq<Request>, limit: int, window: nat, k: Key, lo: nat, hi: nat): nat {
    if log == [] then 0 else
      var init, r := log[..|log| - 1], log[|log| - 1];
      Passed(init, limit, window, k, lo, hi)
      + (if r.redisUp && r.key == k && lo <= r.at <= hi && Passes(After(init, window), r, limit) then 1 else 0)
  }

  function Cap(limit: int): nat {
    if limit <= 0 then 0 else limit
  }

  function AtMost(count: nat, limit: int): nat {
    if count <= Cap(limit) then count else Cap(limit)
  }

  ghost predicate Opened(log: seq<Request>, window: nat, k: Key) {
    k in After(log, window)
  }

  /** An open window started at or before the latest request. */
  lemma {:induction false} WindowStarted(log: seq<Request>, window: nat, k: Key)
    requires InOrder(log) && Opened(log, window, k)
    ensures log != [] && window <= After(log, window)[k].expiry <= log[|log| - 1].at + window
    ensures 1 <= After(log, window)[k].value
    decreases |log|
  {
    var init, r := log[..|log| - 1], log[|log| - 1];
    if Opened(init, window, k) {
      WindowStarted(init, window, k);
    }
  }

  /** Nothing was counted before the first window of k. */
  lemma {:induction false} NothingBeforeOpening(log: seq<Request>, limit: int, window: nat, k: Key, lo: nat, hi: nat)
    requires !Opened(log, window, k)
    ensures Passed(log, limit, window, k, lo, hi) == 0
    decreases |log|
  {
    if log != [] {
      NothingBeforeOpening(log[..|log| - 1], limit, window, k, lo, hi);
    }
  }

  lemma {:induction false} NothingAfterTheLog(log: seq<Request>, limit: int, window: nat, k: Key, lo: nat, hi: nat)
    requires forall i :: 0 <= i < |log| ==> log[i].at < lo
    ensures Passed(log, limit, window, k, lo, hi) == 0
    decreases |log|
  {
    if log != [] {
      NothingAfterTheLog(log[..|log| - 1], limit, window, k, lo, hi);
    }
  }

  /** All requests of k so far precede the end of its window. */
  lemma {:induction false} NothingAfterExpiry(log: seq<Request>, limit: int, window: nat, k: Key, lo: nat, hi: nat)
    requires InOrder(log) && Opened(log, window, k) && After(log, window)[k].expiry <= lo && 0 < window
    ensures Passed(log, limit, window, k, lo, hi) == 0
    decreases |log|
  {
    var init, r := log[..|log| - 1], log[|log| - 1];
    WindowStarted(log, window, k);
    if !(r.redisUp && r.key == k) {
      NothingAfterExpiry(init, limit, window, k, lo, hi);
    } else {
      NothingAfterTheLog(log, limit, window, k, lo, hi);
    }
  }

  /**
   The requests passed since the current window of k opened are exactly its count, cut at the limit: a fixed
   window never passes more than `limit`.
   */
  lemma {:induction false} FixedWindowExact(log: seq<Request>, limit: int, window: nat, k: Key, hi: nat)
    requires InOrder(log) && Opened(log, window, k) && 0 < window && log[|log| - 1].at <= hi
    ensures var e := After(log, window)[k];
      window <= e.expiry && Passed(log, limit, window, k, e.expiry - window, hi) == AtMost(e.value, limit) <= Cap(limit)
    decreases |log|
  {
    var init, r := log[..|log| - 1], log[|log| - 1];
    WindowStarted(log, window, k);
    if !(r.redisUp && r.key == k) {
      FixedWindowExact(init, limit, window, k, hi);
    } else if Live(After(init, window), k, r.at) {
      WindowStarted(init, window, k);
      FixedWindowExact(init, limit, window, k, hi);
    } else if Opened(init, window, k) {
      NothingAfterExpiry(init, limit, window, k, r.at, hi);
    } else {
      NothingBeforeOpening(init, limit, window, k, r.at, hi);
    }
  }

  /** What has passed since lo, by where the current window of k lies. */
  ghost predicate SinceBound(passed: nat, e: Entry<nat>, limit: int, window: nat, lo: nat) {
    if e.expiry <= lo then passed == 0
    else if e.expiry <= lo + window then passed <= AtMost(e.value, limit)
    else passed <= Cap(limit) + AtMost(e.value, limit)
  }

  lemma {:induction false} SinceBounded(log: seq<Request>, limit: int, window: nat, k: Key, lo: nat, hi: nat)
    requires InOrder(log) && Opened(log, window, k) && 0 < window
    requires hi <= lo + window && forall i :: 0 <= i < |log| ==> log[i].at <= hi
    ensures SinceBound(Passed(log, limit, window, k, lo, hi), After(log, window)[k], limit, window, lo)
    decreases |log|
  {
    var init, r := log[..|log| - 1], log[|log| - 1];
    if Opened(init, window, k) {
      WindowStarted(init, window, k);
      SinceBounded(init, limit, window, k, lo, hi);
    } else {
      NothingBeforeOpening(init, limit, window, k, lo, hi);
    }
  }

  /** Any interval no longer than the window, wherever it starts, passes at most twice the limit of a client. */
  lemma {:induction false} AnyIntervalPassesTwiceTheLimit(log: seq<Request>, limit: int, window: nat, k: Key, lo: nat, hi: nat)
    requires InOrder(log) && 0 < window && hi <= lo + window
    ensures Passed(log, limit, window, k, lo, hi) <= 2 * Cap(limit)
    decreases |log|
  {
    if log != [] {
      if log[|log| - 1].at > hi {
        AnyIntervalPassesTwiceTheLimit(log[..|log| - 1], limit, window, k, lo, hi);
      } else if Opened(log, window, k) {
        SinceBounded(log, limit, window, k, lo, hi);
      } else {
        NothingBeforeOpening(log, limit, window, k, lo, hi);
      }
    }
  }

  /** A window of zero seconds limits nothing: every counted request starts afresh. */
  lemma {:induction false} ZeroWindowNeverBlocks(log: seq<Request>, r: Request, limit: int)
    requires InOrder(log + [r]) && 1 <= limit
    ensures Passes(After(log, 0), r, limit)
  {
    if log != [] && Opened(log, 0, r.key) {
      assert (log + [r])[|log|] == r && (log + [r])[|log| - 1] == log[|log| - 1];
      forall i, j | 0 <= i < j < |log|
        ensures log[i].at <= log[j].at
      {
        assert (log + [r])[i] == log[i] && (log + [r])[j] == log[j];
      }
      WindowStarted(log, 0, r.key);
    }
  }

  // ----- how sharp the bounds are -----

  /** What has passed since lo, when the interval is shorter than the window: a window opened before lo loses its opener. */
  ghost predicate SinceBelow(passed: nat, e: Entry<nat>, limit: int, window: nat, lo: nat) {
    if e.expiry <= lo then passed == 0
    else if e.expiry < lo + window then passed < AtMost(e.value, limit)
    else if e.expiry == lo + window then passed <= AtMost(e.value, limit)
    else passed < Cap(limit) + AtMost(e.value, limit)
  }

  lemma {:induction false} SinceBoundedBelow(log: seq<Request>, limit: int, window: nat, k: Key, lo: nat, hi: nat)
    requires InOrder(log) && Opened(log, window, k) && 1 <= limit
    requires hi < lo + window && forall i :: 0 <= i < |log| ==> log[i].at <= hi
    ensures SinceBelow(Passed(log, limit, window, k, lo, hi), After(log, window)[k], limit, window, lo)
    decreases |log|
  {
    var init := log[..|log| - 1];
    if Opened(init, window, k) {
      WindowStarted(init, window, k);
      SinceBoundedBelow(init, limit, window, k, lo, hi);
    } else {
      NothingBeforeOpening(init, limit, window, k, lo, hi);
    }
  }

  /** An interval strictly shorter than the window passes at most one less than twice the limit. */
  lemma {:induction false} ShorterIntervalPassesOneLess(log: seq<Request>, limit: int, window: nat, k: Key, lo: nat, hi: nat)
    requires InOrder(log) && 1 <= limit && hi < lo + window
    ensures Passed(log, limit, window, k, lo, hi) <= 2 * limit - 1
    decreases |log|
  {
    if log != [] {
      if log[|log| - 1].at > hi {
        ShorterIntervalPassesOneLess(log[..|log| - 1], limit, window, k, lo, hi);
      } else if Opened(log, window, k) {
        SinceBoundedBelow(log, limit, window, k, lo, hi);
      } else {
        NothingBeforeOpening(log, limit, window, k, lo, hi);
      }
    }
  }

  /** n requests of k at the same second after an earlier log. */
  function Burst(log: seq<Request>, k: Key, at: nat, n: nat): seq<Request> {
    if n == 0 then log else Burst(log, k, at, n - 1) + [Request(k, at, true)]
  }

  lemma OneMore(log: seq<Request>, limit: int, window: nat, r: Request, hi: nat)
    requires r.redisUp && r.at <= hi && CountOf(After(log, window), r.key, r.at) < limit
    ensures Passed(log + [r], limit, window, r.key, 0, hi) == Passed(log, limit, window, r.key, 0, hi) + 1
    ensures After(log + [r], window) == Incremented(After(log, window), r, window)
  {
    assert (log + [r])[..|log|] == log;
  }

  lemma {:induction false} BurstCounts(log: seq<Request>, window: nat, k: Key, at: nat, n: nat)
    requires 0 < window && !Live(After(log, window), k, at)
    ensures CountOf(After(Burst(log, k, at, n), window), k, at) == n
    ensures n > 0 ==> k in After(Burst(log, k, at, n), window) && After(Burst(log, k, at, n), window)[k].expiry == at + window
    decreases n
  {
    if n > 0 {
      BurstCounts(log, window, k, at, n - 1);
      OneMore(Burst(log, k, at, n - 1), n, window, Request(k, at, true), at);
    }
  }

  /** Where no window of k is open, a burst up to the limit passes whole. */
  lemma {:induction false} BurstPasses(log: seq<Request>, limit: int, window: nat, k: Key, at: nat, hi: nat, n: nat)
    requires 0 < window && n <= limit && at <= hi && !Live(After(log, window), k, at)
    ensures Passed(Burst(log, k, at, n), limit, window, k, 0, hi) == Passed(log, limit, window, k, 0, hi) + n
    decreases n
  {
    if n > 0 {
      BurstPasses(log, limit, window, k, at, hi, n - 1);
      BurstCounts(log, window, k, at, n - 1);
      OneMore(Burst(log, k, at, n - 1), limit, window, Request(k, at, true), hi);
    }
  }

  lemma {:induction false} BurstInOrder(log: seq<Request>, k: Key, at: nat, n: nat)
    requires InOrder(log) && forall i :: 0 <= i < |log| ==> log[i].at <= at
    ensures InOrder(Burst(log, k, at, n)) && forall i :: 0 <= i < |Burst(log, k, at, n)| ==> Burst(log, k, at, n)[i].at <= at
    decreases n
  {
    if n > 0 {
      BurstInOrder(log, k, at, n - 1);
    }
  }

  /** Twice the limit is reached: once when a window opens and once when it ends. */
  lemma TwiceTheLimitIsReached(limit: nat, window: nat, k: Key)
    requires 0 < window
    ensures var log := Burst(Burst([], k, 0, limit), k, window, limit);
      InOrder(log) && Passed(log, limit, window, k, 0, window) == 2 * limit
  {
    var first := Burst([], k, 0, limit);
    BurstInOrder([], k, 0, limit);
    BurstInOrder(first, k, window, limit);
    BurstPasses([], limit, window, k, 0, window, limit);
    BurstCounts([], window, k, 0, limit);
    BurstPasses(first, limit, window, k, window, window, limit);
  }

  // ----- what a request is answered -----

  predicate Counts(r: Request, k: Key) {
    r.redisUp && r.key == k
  }

  /** The counted requests of k from the i-th on. */
  ghost function CountedSince(log: seq<Request>, i: nat, k: Key): nat {
    if |log| <= i then 0
    else CountedSince(log[..|log| - 1], i, k) + (if Counts(log[|log| - 1], k) then 1 else 0)
  }

  /** The i-th request opened k's window: it set the expiry, and the count is of the requests since. */
  ghost predicate WindowFrom(log: seq<Request>, window: nat, k: Key, i: nat, e: Entry<nat>) {
    && i < |log| && Counts(log[i], k) && e.expiry == log[i].at + window && e.value == CountedSince(log, i, k)
    && forall j :: i < j < |log| && Counts(log[j], k) ==> log[j].at < e.expiry
  }

  lemma {:induction false} CountsItself(log: seq<Request>, i: nat, k: Key)
    requires i < |log| && Counts(log[i], k)
    ensures CountedSince(log, i, k) >= 1
    decreases |log|
  {
    if i < |log| - 1 {
      CountsItself(log[..|log| - 1], i, k);
    }
  }

  lemma WindowFromAppend(log: seq<Request>, window: nat, k: Key, i: nat, e: Entry<nat>, r: Request)
    requires WindowFrom(log, window, k, i, e) && (Counts(r, k) ==> r.at < e.expiry)
    ensures WindowFrom(log + [r], window, k, i, Entry(e.value + (if Counts(r, k) then 1 else 0), e.expiry))
  {
    assert (log + [r])[..|log|] == log;
  }

  lemma WindowOpens(log: seq<Request>, window: nat, k: Key, r: Request)
    requires Counts(r, k)
    ensures WindowFrom(log + [r], window, k, |log|, Entry(1, r.at + window))
  {
    assert (log + [r])[..|log|] == log;
    assert CountedSince(log, |log|, k) == 0;
  }

  /** A client's counter exists once it was counted, and is the number of its requests since one of them opened the window. */
  lemma {:induction false} CounterIsWindowCount(log: seq<Request>, window: nat, k: Key)
    ensures Opened(log, window, k) <==> exists i: nat :: i < |log| && Counts(log[i], k)
    ensures Opened(log, window, k) ==> exists i: nat :: WindowFrom(log, window, k, i, After(log, window)[k])
    decreases |log|
  {
    if log != [] {
      var init, r := log[..|log| - 1], log[|log| - 1];
      assert log == init + [r];
      CounterIsWindowCount(init, window, k);
      if Counts(r, k) && !Live(After(init, window), k, r.at) {
        WindowOpens(init, window, k, r);
      } else if Opened(init, window, k) {
        var i: nat :| WindowFrom(init, window, k, i, After(init, window)[k]);
        CountsItself(init, i, k);
        WindowFromAppend(init, window, k, i, After(init, window)[k], r);
        assert After(log, window)[k]
            == Entry(After(init, window)[k].value + (if Counts(r, k) then 1 else 0), After(init, window)[k].expiry);
        assert Counts(log[i], k);
      }
    }
  }

  /**
   Without Redis every request passes. Otherwise a request passes iff, with the requests of the client counted in the
   window it falls into, it is within the limit; one that falls into no window opens a new one.
   */
  lemma PassAnswer(log: seq<Request>, window: nat, limit: int, r: Request)
    ensures !r.redisUp ==> Passes(After(log, window), r, limit)
    ensures r.redisUp && (forall i :: 0 <= i < |log| ==> !Counts(log[i], r.key)) ==>
      (Passes(After(log, window), r, limit) <==> 1 <= limit)
    ensures r.redisUp && (exists i :: 0 <= i < |log| && Counts(log[i], r.key)) ==>
      exists i: nat, e :: WindowFrom(log, window, r.key, i, e)
        && (Passes(After(log, window), r, limit)
            <==> (if r.at < log[i].at + window then CountedSince(log, i, r.key) + 1 else 1) <= limit)
  {
    CounterIsWindowCount(log, window, r.key);
    if r.redisUp && Opened(log, window, r.key) {
      var i: nat :| WindowFrom(log, window, r.key, i, After(log, window)[r.key]);
    }
  }
}
