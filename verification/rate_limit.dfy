/** Fixed-window rate limiting of one key. Times are in milliseconds, windows in whole seconds. */
module RateLimit {
  import opened Common

  /** A live counter and when it expires. A key counts as gone from its expiry time on. */
  datatype Window = Window(count: nat, expires: int)

  function Millis(seconds: int): int {
    1000 * seconds
  }

  function Alive(w: Option<Window>, now: int): bool {
    w.Some? && now < w.value.expires
  }

  /** INCR, and EXPIRE when the counter was new. */
  function Hit(w: Option<Window>, now: int, seconds: int): Window {
    if Alive(w, now) then Window(w.value.count + 1, w.value.expires) else Window(1, now + Millis(seconds))
  }

  /** The counter after requests at `times`. */
  function After(times: seq<int>, seconds: int): Option<Window> {
    if times == [] then None
    else Some(Hit(After(times[..|times| - 1], seconds), times[|times| - 1], seconds))
  }

  /** Whether the last of `times` was let through. */
  predicate Admitted(times: seq<int>, max: nat, seconds: int)
    requires times != []
  {
    After(times, seconds).value.count <= max
  }

  ghost predicate Ordered(times: seq<int>) {
    forall i, j :: 0 <= i < j < |times| ==> times[i] <= times[j]
  }

  // ---- Windows, described without the counter. ----

  /** The request that opened the window in which the last of `times` falls: the first one, or the first
      one at least a window's length after the opening of the window before. */
  function Opener(times: seq<int>, seconds: int): (s: nat)
    requires times != []
    ensures s < |times|
  {
    var last := |times| - 1;
    if last == 0 then 0
    else
      var s := Opener(times[..last], seconds);
      if times[last] < times[s] + Millis(seconds) then s else last
  }

  lemma {:induction false} CounterCountsWindow(times: seq<int>, seconds: int)
    requires times != []
    ensures var s := Opener(times, seconds);
            After(times, seconds) == Some(Window(|times| - s, times[s] + Millis(seconds)))
    decreases |times|
  {
    if |times| > 1 {
      CounterCountsWindow(times[..|times| - 1], seconds);
    }
  }

  /** A request is let through exactly when fewer than `max` requests came before it in its window. */
  lemma AdmittedIff(times: seq<int>, max: nat, seconds: int)
    requires times != []
    ensures Admitted(times, max, seconds) <==> |times| - 1 - Opener(times, seconds) < max
  {
    CounterCountsWindow(times, seconds);
  }

  /** How many of the requests from index `lo` on were let through. */
  function AdmittedFrom(times: seq<int>, lo: nat, max: nat, seconds: int): nat {
    if |times| <= lo then 0
    else AdmittedFrom(times[..|times| - 1], lo, max, seconds) + (if Admitted(times, max, seconds) then 1 else 0)
  }

  /** Each window lets through its first `max` requests: min(max, size) of them. */
  lemma {:induction false} WindowAdmits(times: seq<int>, max: nat, seconds: int)
    requires times != []
    ensures var s := Opener(times, seconds);
            AdmittedFrom(times, s, max, seconds) == if |times| - s <= max then |times| - s else max
    decreases |times|
  {
    AdmittedIff(times, max, seconds);
    var last := |times| - 1;
    var s := Opener(times, seconds);
    assert AdmittedFrom(times[..s], s, max, seconds) == 0;
    if last > 0 {
      WindowAdmits(times[..last], max, seconds);
    }
  }

  // ---- Any stretch of time as long as a window. ----

  /** How many requests between `a` and `b`, both included, were let through. */
  function AdmittedBetween(times: seq<int>, a: int, b: int, max: nat, seconds: int): nat {
    if times == [] then 0
    else
      AdmittedBetween(times[..|times| - 1], a, b, max, seconds)
      + (if a <= times[|times| - 1] <= b && Admitted(times, max, seconds) then 1 else 0)
  }

  lemma {:induction false} NoneBefore(times: seq<int>, a: int, b: int, max: nat, seconds: int)
    requires forall i :: 0 <= i < |times| ==> times[i] < a
    ensures AdmittedBetween(times, a, b, max, seconds) == 0
    decreases |times|
  {
    if times != [] {
      NoneBefore(times[..|times| - 1], a, b, max, seconds);
    }
  }

  lemma {:induction false} ExpiryBounds(times: seq<int>, seconds: int)
    requires times != [] && Ordered(times) && seconds > 0
    ensures times[|times| - 1] < After(times, seconds).value.expires <= times[|times| - 1] + Millis(seconds)
    decreases |times|
  {
    if |times| > 1 {
      ExpiryBounds(times[..|times| - 1], seconds);
    }
  }

  function Min(a: nat, b: nat): nat {
    if a <= b then a else b
  }

  /** A stretch as long as a window meets at most two windows: while the last request is inside it, what it
      let through is at most one full window plus the current one, and just the current one if that was
      already open when the stretch began. */
  lemma {:induction false} StretchMeetsTwoWindows(times: seq<int>, a: int, max: nat, seconds: int)
    requires times != [] && Ordered(times) && seconds > 0 && times[|times| - 1] <= a + Millis(seconds)
    ensures var w := After(times, seconds).value;
            AdmittedBetween(times, a, a + Millis(seconds), max, seconds) <=
            Min(w.count, max) + if w.expires > a + Millis(seconds) then max else 0
    decreases |times|
  {
    var last := |times| - 1;
    var before := times[..last];
    if last == 0 {
      NoneBefore(before, a, a + Millis(seconds), max, seconds);
    } else {
      StretchMeetsTwoWindows(before, a, max, seconds);
      ExpiryBounds(before, seconds);
      if !Alive(After(before, seconds), times[last]) && times[last] <= a {
        NoneBefore(before, a, a + Millis(seconds), max, seconds);
      }
    }
  }

  /** No stretch of time as long as the window ever lets through more than twice the limit. */
  lemma {:induction false} AtMostTwiceTheLimit(times: seq<int>, a: int, max: nat, seconds: int)
    requires Ordered(times) && seconds > 0
    ensures AdmittedBetween(times, a, a + Millis(seconds), max, seconds) <= 2 * max
    decreases |times|
  {
    if times != [] {
      if times[|times| - 1] <= a + Millis(seconds) {
        StretchMeetsTwoWindows(times, a, max, seconds);
      } else {
        AtMostTwiceTheLimit(times[..|times| - 1], a, max, seconds);
      }
    }
  }

  // ---- Retry-After. ----

  /** The seconds a rejected client is told to wait; `ttl` is what the store reports for the key. */
  function RetryAfter(ttl: int, seconds: int): int {
    if ttl > 0 then ttl else seconds
  }

  /** A rejected client that waits as told while nobody else calls is let through exactly when the wait
      covers what was left of the window. */
  lemma WaitingClientAdmittedIff(times: seq<int>, max: nat, seconds: int, ttl: int)
    requires times != [] && Ordered(times) && seconds > 0 && max >= 1 && !Admitted(times, max, seconds)
    ensures var now := times[|times| - 1];
            var left := After(times, seconds).value.expires - now;
            && 0 < left <= Millis(seconds)
            && (Admitted(times + [now + Millis(RetryAfter(ttl, seconds))], max, seconds)
                <==> Millis(RetryAfter(ttl, seconds)) >= left)
  {
    ExpiryBounds(times, seconds);
    var again := times + [times[|times| - 1] + Millis(RetryAfter(ttl, seconds))];
    assert again[..|again| - 1] == times;
  }

  function RoundedUp(millis: int): int {
    (millis + 999) / 1000
  }

  function RoundedToNearest(millis: int): int {
    (millis + 500) / 1000
  }

  /** A store that rounds the remaining time up always gives a sufficient Retry-After. */
  lemma RoundingUpSuffices(times: seq<int>, max: nat, seconds: int)
    requires times != [] && Ordered(times) && seconds > 0 && max >= 1 && !Admitted(times, max, seconds)
    ensures var now := times[|times| - 1];
            var ttl := RoundedUp(After(times, seconds).value.expires - now);
            Admitted(times + [now + Millis(RetryAfter(ttl, seconds))], max, seconds)
  {
    var now := times[|times| - 1];
    var ttl := RoundedUp(After(times, seconds).value.expires - now);
    WaitingClientAdmittedIff(times, max, seconds, ttl);
  }

  /** A store that rounds to the nearest second does not: the wait is too short exactly when the time left
      is more than half a second, and its fraction of a second is positive and less than a half. */
  lemma RoundingToNearestSufficesIff(times: seq<int>, max: nat, seconds: int)
    requires times != [] && Ordered(times) && seconds > 0 && max >= 1 && !Admitted(times, max, seconds)
    ensures var now := times[|times| - 1];
            var left := After(times, seconds).value.expires - now;
            var ttl := RoundedToNearest(left);
            Admitted(times + [now + Millis(RetryAfter(ttl, seconds))], max, seconds)
            <==> left < 500 || left % 1000 == 0 || left % 1000 >= 500
  {
    var now := times[|times| - 1];
    WaitingClientAdmittedIff(times, max, seconds, RoundedToNearest(After(times, seconds).value.expires - now));
  }

  lemma RoundingToNearestCanFail()
    ensures var times := [0, 600];
            && !Admitted(times, 1, 2)
            && !Admitted(times + [600 + Millis(RetryAfter(RoundedToNearest(After(times, 2).value.expires - 600), 2))],
                         1, 2)
  {
    var times := [0, 600];
    assert times[..1] == [0] && [0][..0] == [];
    assert After([0], 2) == Some(Window(1, 2000));
    assert After(times, 2) == Some(Window(2, 2000));
    RoundingToNearestSufficesIff(times, 1, 2);
  }
}

/** The limiter over its keys. */
module RateLimiterService {
  import opened Common
  import opened RateLimit

  datatype Verdict = Allowed | LimitExceeded(retryAfter: int)

  class RateLimiter {
    var counts: map<string, nat>
    var expiry: map<string, int>

    constructor ()
      ensures Valid() && forall key :: WindowOf(key) == None
    {
      counts, expiry := map[], map[];
    }

    /** Every stored counter has an expiry: INCR and EXPIRE happen together. */
    ghost predicate Valid()
      reads this
    {
      counts.Keys == expiry.Keys && forall key :: key in counts ==> counts[key] > 0
    }

    ghost function WindowOf(key: string): Option<Window>
      reads this
    {
      if key in counts && key in expiry then Some(Window(counts[key], expiry[key])) else None
    }

    /** `now` is when the request arrives, `ttl` what the store then reports for the key. */
    method CheckAndIncrement(key: string, max: nat, seconds: int, now: int, ttl: int) returns (verdict: Verdict)
      requires Valid()
      modifies this
      ensures Valid() && WindowOf(key) == Some(Hit(old(WindowOf(key)), now, seconds))
      ensures forall other :: other != key ==> WindowOf(other) == old(WindowOf(other))
      ensures verdict == if WindowOf(key).value.count <= max then Allowed else LimitExceeded(RetryAfter(ttl, seconds))
    {
      var current := 1;
      if key in counts && now < expiry[key] {
        current := counts[key] + 1;
      }
      counts := counts[key := current];
      if current == 1 {
        expiry := expiry[key := now + Millis(seconds)];
      }
      if current > max {
        return LimitExceeded(if ttl > 0 then ttl else seconds);
      }
      verdict := Allowed;
    }
  }
}
