/** The warning rate limiter of logging/logging.go. Times are in the unit of
    the interval; the clock may run backwards. */
module RateLimiters {
  datatype Call = Call(key: string, now: int, allowed: bool)

  /** The times at which calls for a key were allowed, in call order. */
  function Allowed(log: seq<Call>, key: string): (times: seq<int>)
  {
    if log == [] then []
    else
      var front, last := Allowed(log[..|log| - 1], key), log[|log| - 1];
      if last.key == key && last.allowed then front + [last.now] else front
  }

  ghost predicate Spaced(times: seq<int>, interval: nat)
  {
    forall i :: 0 <= i < |times| - 1 ==> times[i + 1] >= times[i] + interval
  }

  /** last holds the newest allowed time of a key, and the allowed times of
      the key are an interval apart. */
  ghost predicate KeyValid(last: map<string, int>, log: seq<Call>, interval: nat, key: string)
  {
    var times := Allowed(log, key);
    && (key in last <==> times != [])
    && (key in last ==> last[key] == times[|times| - 1])
    && Spaced(times, interval)
  }

  function AfterCall(last: map<string, int>, call: Call): (r: map<string, int>)
  {
    if call.allowed then last[call.key := call.now] else last
  }

  lemma KeyStep(last: map<string, int>, log: seq<Call>, interval: nat, call: Call, key: string)
    requires KeyValid(last, log, interval, key)
    requires call.allowed && call.key == key && key in last ==> call.now >= last[key] + interval
    ensures KeyValid(AfterCall(last, call), log + [call], interval, key)
  {
    AllowedAppend(log, call, key);
  }

  class RateLimiter {
    const interval: nat
    var last: map<string, int>
    ghost var log: seq<Call>

    ghost predicate Valid()
      reads this
    {
      && interval > 0
      && forall key :: KeyValid(last, log, interval, key)
    }

    constructor (interval: nat)
      requires interval > 0
      ensures Valid() && this.interval == interval && log == []
    {
      this.interval, last, log := interval, map[], [];
    }

    /** A call is refused exactly when it comes less than an interval after the
        last allowed call for the same key; other keys do not matter. */
    method Allow(key: string, now: int) returns (ok: bool)
      requires Valid()
      modifies this
      ensures Valid() && log == old(log) + [Call(key, now, ok)]
      ensures var times := old(Allowed(log, key));
              ok <==> (times == [] || now - times[|times| - 1] >= interval)
    {
      assert KeyValid(last, log, interval, key);
      ok := !(key in last && now - last[key] < interval);
      ghost var call := Call(key, now, ok);
      assert ok <==> (Allowed(log, key) == [] || now - Allowed(log, key)[|Allowed(log, key)| - 1] >= interval);
      hide KeyValid;
      ghost var after, extended := AfterCall(last, call), log + [call];
      forall k
        ensures KeyValid(after, extended, interval, k)
      {
        assert KeyValid(last, log, interval, k);
        KeyStep(last, log, interval, call, k);
      }
      if ok {
        last := last[key := now];
      }
      log := log + [call];
      assert last == after && log == extended;
    }
  }

  lemma AllowedAppend(log: seq<Call>, call: Call, key: string)
    ensures Allowed(log + [call], key)
         == if call.key == key && call.allowed then Allowed(log, key) + [call.now] else Allowed(log, key)
  {
    assert (log + [call])[..|log|] == log;
  }

  lemma {:induction false} SpacedFrom(times: seq<int>, interval: nat, i: nat, j: nat)
    requires Spaced(times, interval) && i <= j < |times|
    ensures times[j] >= times[i] + interval * (j - i)
    decreases j
  {
    if i < j {
      SpacedFrom(times, interval, i, j - 1);
      assert interval * (j - i) == interval * (j - 1 - i) + interval;
    }
  }

  /** Rate bound: the allowed times of a key increase by at least the interval, so
      if two of its allowed calls lie in a window of a given width, there are at
      most width / interval + 1 allowed calls from the first to the second, whatever
      the clock and the other keys did. */
  lemma RateBound(limiter: RateLimiter, key: string, i: nat, j: nat, width: nat)
    requires limiter.Valid() && i <= j < |Allowed(limiter.log, key)|
    ensures var times := Allowed(limiter.log, key);
            && (i < j ==> times[i] + limiter.interval <= times[j])
            && (times[j] - times[i] <= width ==> j - i + 1 <= width / limiter.interval + 1)
  {
    assert KeyValid(limiter.last, limiter.log, limiter.interval, key);
    var times, interval := Allowed(limiter.log, key), limiter.interval;
    SpacedFrom(times, interval, i, j);
    if i < j {
      ScaledAbove(interval, 0, j - i);
    }
    if j - i > width / interval {
      AboveQuotient(width, interval, j - i);
    }
  }

  /** Only the allowed calls of a key count, in call order. */
  lemma AllowedMeans(before: seq<Call>, call: Call, key: string)
    ensures Allowed([], key) == []
    ensures Allowed(before + [call], key) ==
            Allowed(before, key) + if call.key == key && call.allowed then [call.now] else []
  {
    AllowedAppend(before, call, key);
  }

  lemma AboveQuotient(width: nat, interval: nat, n: nat)
    requires interval > 0 && n > width / interval
    ensures interval * n > width
  {
    ScaledAbove(interval, width / interval, n);
  }

  lemma {:induction false} ScaledAbove(a: nat, low: nat, high: nat)
    requires low < high
    ensures a * high >= a * low + a
  {
    if low + 1 < high {
      ScaledAbove(a, low, high - 1);
    }
  }
}
