/** The sliding-window limiter: a sorted set that is trimmed, extended and expired on each
    request, against the full history of requests. */
module RateLimit {
  import opened Wrappers

  /** One identity's key: the scores in the set, and when the key expires. */
  datatype Window = Window(entries: seq<int>, expiresAt: Option<int>)

  const EMPTY := Window([], None)

  /** The requests later than `bound`, in order. */
  function Recent(times: seq<int>, bound: int): seq<int> {
    if times == [] then []
    else if times[|times| - 1] > bound then Recent(times[..|times| - 1], bound) + [times[|times| - 1]]
    else Recent(times[..|times| - 1], bound)
  }

  /** An expired key holds nothing. */
  function Present(w: Window, now: int): seq<int> {
    if w.expiresAt.Some? && now >= w.expiresAt.value then [] else w.entries
  }

  /** The pipeline of one request: trim, add, count, renew the expiry. */
  function Request(w: Window, windowMs: nat, now: int): Window {
    Window(Recent(Present(w, now), now - windowMs) + [now], Some(now + windowMs))
  }

  /** The clock does not run backwards. */
  predicate Monotone(times: seq<int>) {
    |times| <= 1 || (Monotone(times[..|times| - 1]) && times[|times| - 2] <= times[|times| - 1])
  }

  function After(times: seq<int>, windowMs: nat): Window {
    if times == [] then EMPTY else Request(After(times[..|times| - 1], windowMs), windowMs, times[|times| - 1])
  }

  /** Whether the last of these requests is let through. */
  predicate Admitted(times: seq<int>, windowMs: nat, max: int) {
    times != [] && |After(times, windowMs).entries| <= max
  }

  lemma RecentSnoc(front: seq<int>, now: int, bound: int)
    ensures Recent(front + [now], bound) == if now > bound then Recent(front, bound) + [now] else Recent(front, bound)
  {
    assert (front + [now])[..|front|] == front;
  }

  lemma RecentLast(times: seq<int>, bound: int)
    requires times != []
    ensures var front, last := times[..|times| - 1], times[|times| - 1];
            Recent(times, bound) == if last > bound then Recent(front, bound) + [last] else Recent(front, bound)
  {
  }

  lemma {:induction false} RecentOfRecent(times: seq<int>, a: int, b: int)
    requires a <= b
    ensures Recent(Recent(times, a), b) == Recent(times, b)
    decreases |times|
  {
    if times != [] {
      var front, last := times[..|times| - 1], times[|times| - 1];
      RecentOfRecent(front, a, b);
      RecentLast(times, a);
      RecentLast(times, b);
      RecentSnoc(Recent(front, a), last, b);
    }
  }

  lemma {:induction false} NothingRecent(times: seq<int>, bound: int)
    requires Monotone(times) && (times != [] ==> times[|times| - 1] <= bound)
    ensures Recent(times, bound) == []
  {
    if times != [] {
      NothingRecent(times[..|times| - 1], bound);
    }
  }

  /** What trimming leaves of the set is what filtering leaves of these requests. */
  predicate Agrees(w: Window, times: seq<int>, windowMs: nat, now: int) {
    Recent(Present(w, now), now - windowMs) == Recent(times, now - windowMs)
  }

  lemma Requested(w: Window, front: seq<int>, windowMs: nat, last: int)
    requires Agrees(w, front, windowMs, last)
    ensures Request(w, windowMs, last) == Window(Recent(front, last - windowMs) + [last], Some(last + windowMs))
  {
  }

  lemma AgreesInWindow(w: Window, times: seq<int>, windowMs: nat, last: int, now: int)
    requires w == Window(Recent(times, last - windowMs), Some(last + windowMs)) && last <= now < last + windowMs
    ensures Agrees(w, times, windowMs, now)
  {
    RecentOfRecent(times, last - windowMs, now - windowMs);
  }

  lemma AgreesExpired(w: Window, times: seq<int>, windowMs: nat, now: int)
    requires times != [] && Monotone(times) && times[|times| - 1] <= now - windowMs
    requires w.expiresAt.Some? && w.expiresAt.value <= now
    ensures Agrees(w, times, windowMs, now)
  {
    NothingRecent(times, now - windowMs);
    assert Present(w, now) == [];
  }

  /** A set that holds the last window of the requests still agrees with them later. */
  lemma AgreesLater(w: Window, times: seq<int>, windowMs: nat, last: int, now: int)
    requires times != [] && Monotone(times) && last == times[|times| - 1] && last <= now
    requires w == Window(Recent(times[..|times| - 1], last - windowMs) + [last], Some(last + windowMs))
    ensures Agrees(w, times, windowMs, now)
  {
    if now >= last + windowMs {
      AgreesExpired(w, times, windowMs, now);
    } else {
      RecentLast(times, last - windowMs);
      AgreesInWindow(w, times, windowMs, last, now);
    }
  }

  lemma {:induction false} TrimmedSet(times: seq<int>, windowMs: nat, now: int)
    requires Monotone(times) && (times != [] ==> times[|times| - 1] <= now)
    ensures Agrees(After(times, windowMs), times, windowMs, now)
    decreases |times|
  {
    if times == [] {
      assert Present(EMPTY, now) == [];
    } else {
      var front, last := times[..|times| - 1], times[|times| - 1];
      TrimmedSet(front, windowMs, last);
      Requested(After(front, windowMs), front, windowMs, last);
      AgreesLater(After(times, windowMs), times, windowMs, last, now);
    }
  }

  /** Whatever was trimmed or expired on the way, the set holds exactly the requests of the
      last window in the full history, rejected ones included, and the current one. */
  lemma SetIsRecentHistory(times: seq<int>, windowMs: nat)
    requires times != [] && Monotone(times)
    ensures var now := times[|times| - 1];
            && After(times, windowMs).entries == Recent(times[..|times| - 1], now - windowMs) + [now]
            && (windowMs > 0 ==> After(times, windowMs).entries == Recent(times, now - windowMs))
  {
    var front, now := times[..|times| - 1], times[|times| - 1];
    TrimmedSet(front, windowMs, now);
    Requested(After(front, windowMs), front, windowMs, now);
    RecentLast(times, now - windowMs);
  }

  // ── The limit ───────────────────────────────────────────────────────────────────

  /** How many of the requests in (lo, hi] were admitted. */
  function AdmittedIn(times: seq<int>, windowMs: nat, max: int, lo: int, hi: int): nat {
    if times == [] then 0
    else AdmittedIn(times[..|times| - 1], windowMs, max, lo, hi)
         + (if lo < times[|times| - 1] <= hi && Admitted(times, windowMs, max) then 1 else 0)
  }

  lemma {:induction false} AdmittedAreRecent(times: seq<int>, windowMs: nat, max: int, lo: int, hi: int)
    ensures AdmittedIn(times, windowMs, max, lo, hi) <= |Recent(times, lo)|
  {
    if times != [] {
      AdmittedAreRecent(times[..|times| - 1], windowMs, max, lo, hi);
    }
  }

  lemma {:induction false} RecentIsMonotone(times: seq<int>, a: int, b: int)
    requires a <= b
    ensures |Recent(times, b)| <= |Recent(times, a)|
  {
    if times != [] {
      RecentIsMonotone(times[..|times| - 1], a, b);
    }
  }

  /** The last request bounds all that were admitted in a window around it. */
  lemma LastAdmitted(times: seq<int>, windowMs: nat, max: nat, t: int)
    requires Monotone(times) && times != [] && Admitted(times, windowMs, max)
    requires t - windowMs < times[|times| - 1] <= t
    ensures AdmittedIn(times, windowMs, max, t - windowMs, t) <= max
  {
    var last := times[|times| - 1];
    SetIsRecentHistory(times, windowMs);
    AdmittedAreRecent(times, windowMs, max, t - windowMs, t);
    RecentIsMonotone(times, last - windowMs, t - windowMs);
  }

  lemma LastNotAdmitted(times: seq<int>, windowMs: nat, max: nat, lo: int, hi: int)
    requires times != [] && !(lo < times[|times| - 1] <= hi && Admitted(times, windowMs, max))
    ensures AdmittedIn(times, windowMs, max, lo, hi) == AdmittedIn(times[..|times| - 1], windowMs, max, lo, hi)
  {
  }

  /** For every time `t`, at most `max` requests are admitted in (t - windowMs, t]. */
  lemma {:induction false} NeverMoreThanMax(times: seq<int>, windowMs: nat, max: nat, t: int)
    requires Monotone(times)
    ensures AdmittedIn(times, windowMs, max, t - windowMs, t) <= max
    decreases |times|
  {
    if times != [] {
      if t - windowMs < times[|times| - 1] <= t && Admitted(times, windowMs, max) {
        LastAdmitted(times, windowMs, max, t);
      } else {
        LastNotAdmitted(times, windowMs, max, t - windowMs, t);
        NeverMoreThanMax(times[..|times| - 1], windowMs, max, t);
      }
    }
  }

  /** How many of the requests lie in the window of `windowMs` that ends at `now`. */
  function InWindow(times: seq<int>, windowMs: nat, now: int): nat {
    if times == [] then 0
    else InWindow(times[..|times| - 1], windowMs, now) + (if now - times[|times| - 1] < windowMs then 1 else 0)
  }

  lemma {:induction false} RecentAreInWindow(times: seq<int>, windowMs: nat, now: int)
    ensures |Recent(times, now - windowMs)| == InWindow(times, windowMs, now)
  {
    if times != [] {
      RecentAreInWindow(times[..|times| - 1], windowMs, now);
    }
  }

  /** A request is admitted exactly if it and the requests of the window that it ends, rejected ones
      included, are at most `max`. */
  lemma AdmittedIff(times: seq<int>, windowMs: nat, max: int)
    requires times != [] && Monotone(times)
    ensures var before, now := times[..|times| - 1], times[|times| - 1];
            Admitted(times, windowMs, max) <==> InWindow(before, windowMs, now) + 1 <= max
  {
    SetIsRecentHistory(times, windowMs);
    RecentAreInWindow(times[..|times| - 1], windowMs, times[|times| - 1]);
  }

  /** `w` is the set after these requests, and its size decides about the last. */
  predicate Holds(w: Window, times: seq<int>, windowMs: nat) {
    Monotone(times) && w == After(times, windowMs)
  }

  lemma NextRequest(w: Window, times: seq<int>, windowMs: nat, now: int)
    requires Holds(w, times, windowMs) && (times != [] ==> times[|times| - 1] <= now)
    ensures Holds(Request(w, windowMs, now), times + [now], windowMs)
    ensures |Request(w, windowMs, now).entries| == InWindow(times, windowMs, now) + 1
  {
    var more := times + [now];
    assert more[..|more| - 1] == times;
    TrimmedSet(times, windowMs, now);
    Requested(w, times, windowMs, now);
    RecentAreInWindow(times, windowMs, now);
  }

  lemma SizeDecides(w: Window, times: seq<int>, windowMs: nat, max: int)
    requires Holds(w, times, windowMs) && times != []
    ensures |w.entries| <= max <==> Admitted(times, windowMs, max)
  {
  }

  /** What one more request finds: the set grows by it, and its size decides, as the window before it does. */
  lemma RequestDecides(w: Window, times: seq<int>, windowMs: nat, now: int, max: int, next: Window)
    requires Holds(w, times, windowMs) && (times != [] ==> times[|times| - 1] <= now)
    requires next == Request(w, windowMs, now)
    ensures Holds(next, times + [now], windowMs)
    ensures |next.entries| <= max <==> Admitted(times + [now], windowMs, max)
    ensures |next.entries| <= max <==> InWindow(times, windowMs, now) + 1 <= max
  {
    NextRequest(w, times, windowMs, now);
    SizeDecides(next, times + [now], windowMs, max);
  }

  // ── The middleware ──────────────────────────────────────────────────────────────

  class RateLimiter {
    const windowMs: nat
    const max: int
    var entries: seq<int>
    var expiresAt: Option<int>
    ghost var times: seq<int>

    ghost predicate Valid()
      reads this
    {
      Holds(Window(entries, expiresAt), times, windowMs)
    }

    constructor (windowMs: nat, max: int)
      ensures Valid() && times == [] && this.windowMs == windowMs && this.max == max
    {
      this.windowMs, this.max := windowMs, max;
      entries, expiresAt, times := [], None, [];
    }

    /** One request at `now`; counts itself even if it is then rejected. If Redis does not answer, the request
        is let through and not counted. */
    method Handle(now: int, answers: bool) returns (admitted: bool)
      requires Valid()
      requires times != [] ==> times[|times| - 1] <= now
      modifies this
      ensures Valid()
      ensures !answers ==> admitted && times == old(times) && entries == old(entries) && expiresAt == old(expiresAt)
      ensures answers ==> times == old(times) + [now]
      ensures answers ==> (admitted <==> Admitted(times, windowMs, max))
      ensures answers ==> (admitted <==> InWindow(old(times), windowMs, now) + 1 <= max)
    {
      if !answers {
        return true;
      }
      ghost var before := Window(entries, expiresAt);
      var count := Pipeline(now);
      RequestDecides(before, times, windowMs, now, max, Window(entries, expiresAt));
      times := times + [now];
      admitted := count <= max;
    }

    /** The four commands, on a key that may have expired. */
    method Pipeline(now: int) returns (count: nat)
      modifies `entries, `expiresAt
      ensures Window(entries, expiresAt) == Request(old(Window(entries, expiresAt)), windowMs, now)
      ensures count == |entries|
    {
      if expiresAt.Some? && now >= expiresAt.value {
        entries, expiresAt := [], None;
      }
      entries := Recent(entries, now - windowMs);
      entries := entries + [now];
      count := |entries|;
      expiresAt := Some(now + windowMs);
    }
  }
}
