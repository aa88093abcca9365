/** The in-memory sliding-window limiter (security/rate_limit.py). */
module RateLimit {
  /** Accepted event times of one key, oldest first. */
  type History = seq<real>

  predicate Sorted(h: History) {
    forall i, j :: 0 <= i < j < |h| ==> h[i] <= h[j]
  }

  /** How many accepted events lie in the half-open window (from, to]. */
  function InWindow(h: History, from: real, to: real): nat {
    if h == [] then 0
    else InWindow(h[..|h| - 1], from, to) + if from < h[|h| - 1] <= to then 1 else 0
  }

  /** Of two acceptances with limit - 1 or more between them, the later comes at least a window after;
      so no limit + 1 fit into less than a window. */
  predicate Spaced(h: History, limit: nat, window: real) {
    forall i, j :: 0 <= i && i + limit <= j < |h| ==> h[i] <= h[j] - window
  }

  lemma {:induction false} WindowConcat(a: History, b: History, from: real, to: real)
    ensures InWindow(a + b, from, to) == InWindow(a, from, to) + InWindow(b, from, to)
  {
    if b == [] {
      assert a + b == a;
    } else {
      assert (a + b)[..|a + b| - 1] == a + b[..|b| - 1];
      WindowConcat(a, b[..|b| - 1], from, to);
    }
  }

  lemma {:induction false} WindowNone(h: History, from: real, to: real)
    requires forall i :: 0 <= i < |h| ==> !(from < h[i] <= to)
    ensures InWindow(h, from, to) == 0
  {
    if h != [] {
      WindowNone(h[..|h| - 1], from, to);
    }
  }

  lemma {:induction false} WindowAll(h: History, from: real, to: real)
    requires forall i :: 0 <= i < |h| ==> from < h[i] <= to
    ensures InWindow(h, from, to) == |h|
  {
    if h != [] {
      WindowAll(h[..|h| - 1], from, to);
    }
  }

  /** In sorted times a window is a contiguous stretch. */
  lemma {:induction false} WindowStretch(h: History, from: real, to: real) returns (lo: nat, hi: nat)
    requires Sorted(h) && from <= to
    ensures lo <= hi <= |h| && InWindow(h, from, to) == hi - lo
    ensures forall i :: lo <= i < hi ==> from < h[i] <= to
  {
    if h == [] {
      lo, hi := 0, 0;
    } else {
      var n := |h| - 1;
      lo, hi := WindowStretch(h[..n], from, to);
      if from < h[n] <= to {
        if lo == hi {
          lo, hi := n, n + 1;
        } else {
          StretchReachesEnd(h, from, to, lo, hi);
          hi := hi + 1;
        }
      }
    }
  }

  lemma StretchReachesEnd(h: History, from: real, to: real, lo: nat, hi: nat)
    requires Sorted(h) && h != [] && from < h[|h| - 1] <= to && lo < hi <= |h| - 1
    requires InWindow(h[..|h| - 1], from, to) == hi - lo
    requires forall i :: lo <= i < hi ==> from < h[i] <= to
    ensures hi == |h| - 1
  {
    var init := h[..|h| - 1];
    assert init == init[..lo] + init[lo..];
    assert forall i :: 0 <= i < |init[lo..]| ==> from < init[lo..][i] <= to by {
      forall i | 0 <= i < |init[lo..]| ensures from < init[lo..][i] <= to {
        assert init[lo..][i] == h[lo + i] && h[lo] <= h[lo + i] <= h[|h| - 1];
      }
    }
    WindowConcat(init[..lo], init[lo..], from, to);
    WindowAll(init[lo..], from, to);
  }

  /** Spaced acceptances put at most limit of them into any half-open window. */
  lemma WindowBounded(h: History, limit: nat, window: real, from: real)
    requires Sorted(h) && Spaced(h, limit, window) && window >= 0.0
    ensures InWindow(h, from, from + window) <= limit
  {
    var lo, hi := WindowStretch(h, from, from + window);
    if lo < hi {
      var first, last := h[lo], h[hi - 1];
      assert from < first && last <= from + window;
    }
  }

  /** The window ending at a time holds limit acceptances or more. */
  predicate Full(h: History, limit: nat, window: real, at: real) {
    InWindow(h, at - window, at) >= limit
  }

  /** From now on the window is full until exactly the given time. */
  ghost predicate FullUntil(h: History, limit: nat, window: real, now: real, end: real) {
    forall later :: later >= now ==> (Full(h, limit, window, later) <==> later < end)
  }

  /** A queue is the end of its history, and what was popped has left every window from now on. */
  ghost predicate QueueOk(h: History, queue: seq<real>, limit: nat, window: real, now: real) {
    && Sorted(h) && Spaced(h, limit, window)
    && (forall i :: 0 <= i < |h| ==> h[i] <= now)
    && |queue| <= |h| && |queue| <= limit && queue == h[|h| - |queue|..]
    && (forall i :: 0 <= i < |h| - |queue| ==> h[i] <= now - window)
  }

  /** ceil as Python computes it. */
  function Ceil(x: real): (c: int)
    ensures x <= c as real < x + 1.0
  {
    -(-x).Floor
  }

  /** Whole seconds, at least one, until the oldest counted event has left the window. */
  function RetryAfter(oldest: real, window: real, now: real): (r: int)
    ensures r >= 1 && oldest + window <= now + r as real
    ensures r > 1 ==> now + (r - 1) as real < oldest + window
  {
    var wait := Ceil(oldest + window - now);
    if wait >= 1 then wait else 1
  }

  datatype Outcome = Accepted | Refused(retryAfter: int, usage: nat)

  class InMemoryRateLimiter {
    const limit: nat
    const windowSeconds: nat
    var events: map<string, seq<real>>
    /** Every acceptance there ever was, and the last time asked about; history only. */
    ghost var accepted: map<string, History>
    ghost var lastNow: real

    constructor (limit: nat, windowSeconds: nat, ghost start: real)
      requires limit >= 1
      ensures Valid() && this.limit == limit && this.windowSeconds == windowSeconds
      ensures accepted == map[] && lastNow == start
    {
      this.limit := limit;
      this.windowSeconds := windowSeconds;
      events := map[];
      accepted := map[];
      lastNow := start;
    }

    function Window(): real {
      windowSeconds as real
    }

    ghost function History(key: string): History
      reads this
    {
      if key in accepted then accepted[key] else []
    }

    ghost function Deque(key: string): seq<real>
      reads this
    {
      if key in events then events[key] else []
    }

    ghost predicate KeyValid(key: string)
      reads this
    {
      QueueOk(History(key), Deque(key), limit, Window(), lastNow)
    }

    ghost predicate Valid()
      reads this
    {
      limit >= 1 && forall key :: KeyValid(key)
    }

    /** Drop the events that have left the window: the queue then counts it exactly. */
    method Prune(queue: seq<real>, now: real, ghost h: History) returns (pruned: seq<real>)
      requires QueueOk(h, queue, limit, Window(), lastNow) && lastNow <= now
      ensures QueueOk(h, pruned, limit, Window(), now)
      ensures InWindow(h, now - Window(), now) == |pruned|
    {
      pruned := queue;
      while pruned != [] && pruned[0] <= now - Window()
        invariant QueueOk(h, pruned, limit, Window(), now)
      {
        pruned := pruned[1..];
      }
      CountsQueue(h, pruned, now, Window());
    }

    /**
     * Accepts exactly when the whole history has fewer than limit acceptances in the window ending now.
     * After a refusal, with nothing else accepted, the key is refused until exactly the time its oldest
     * counted event leaves the window, and the advised delay is the shortest in whole seconds to reach that time.
     */
    method Check(key: string, now: real) returns (outcome: Outcome)
      requires Valid() && lastNow <= now
      modifies this
      ensures Valid() && lastNow == now
      ensures outcome.Accepted? <==> !Full(old(History(key)), limit, Window(), now)
      ensures accepted == old(accepted)[key := if outcome.Accepted? then old(History(key)) + [now] else old(History(key))]
      ensures outcome.Refused? ==>
                && outcome.retryAfter >= 1 && outcome.usage == limit == |Deque(key)|
                && FullUntil(History(key), limit, Window(), now, Deque(key)[0] + Window())
                && Deque(key)[0] + Window() <= now + outcome.retryAfter as real
                && (outcome.retryAfter > 1 ==> now + (outcome.retryAfter - 1) as real < Deque(key)[0] + Window())
    {
      var queue := if key in events then events[key] else [];
      assert KeyValid(key);
      ghost var h := History(key);
      var pruned := Prune(queue, now, h);
      outcome := Decide(key, pruned, now, h);
    }

    method Decide(key: string, pruned: seq<real>, now: real, ghost h: History) returns (outcome: Outcome)
      requires Valid() && lastNow <= now && h == History(key)
      requires QueueOk(h, pruned, limit, Window(), now) && InWindow(h, now - Window(), now) == |pruned|
      modifies this
      ensures Valid() && lastNow == now
      ensures outcome.Accepted? <==> |pruned| < limit
      ensures accepted == if outcome.Accepted? then old(accepted)[key := h + [now]] else old(accepted)[key := h]
      ensures outcome.Refused? ==>
                && outcome.retryAfter >= 1 && outcome.usage == limit == |Deque(key)|
                && FullUntil(h, limit, Window(), now, Deque(key)[0] + Window())
                && Deque(key)[0] + Window() <= now + outcome.retryAfter as real
                && (outcome.retryAfter > 1 ==> now + (outcome.retryAfter - 1) as real < Deque(key)[0] + Window())
    {
      if |pruned| >= limit {
        RefusedUntil(h, pruned, now, limit, Window());
        Store(key, pruned, now, h);
        return Refused(RetryAfter(pruned[0], Window(), now), |pruned|);
      }
      NextIsSpaced(h, pruned, now, limit, Window());
      Store(key, pruned + [now], now, h + [now]);
      return Accepted;
    }

    /** Writing one key's queue leaves every other key's valid. */
    method Store(key: string, queue: seq<real>, now: real, ghost h: History)
      requires Valid() && lastNow <= now && QueueOk(h, queue, limit, Window(), now)
      modifies this
      ensures Valid() && lastNow == now
      ensures events == old(events)[key := queue] && accepted == old(accepted)[key := h]
    {
      events := events[key := queue];
      accepted := accepted[key := h];
      lastNow := now;
      forall other ensures KeyValid(other) {
        if other != key {
          assert old(KeyValid(other));
          StillOk(History(other), Deque(other), limit, Window(), old(lastNow), now);
        }
      }
    }
  }

  /** A queue stays in order as time passes. */
  lemma StillOk(h: History, queue: seq<real>, limit: nat, window: real, now: real, later: real)
    requires QueueOk(h, queue, limit, window, now) && now <= later
    ensures QueueOk(h, queue, limit, window, later)
  {}

  /** After pruning, the queue holds exactly the acceptances inside the window ending now. */
  lemma CountsQueue(h: History, queue: seq<real>, now: real, window: real)
    requires Sorted(h) && |queue| <= |h| && queue == h[|h| - |queue|..] && window >= 0.0
    requires forall i :: 0 <= i < |h| ==> h[i] <= now
    requires forall i :: 0 <= i < |h| - |queue| ==> h[i] <= now - window
    requires queue != [] ==> queue[0] > now - window
    ensures InWindow(h, now - window, now) == |queue|
  {
    var cut := |h| - |queue|;
    assert h == h[..cut] + queue;
    WindowConcat(h[..cut], queue, now - window, now);
    WindowNone(h[..cut], now - window, now);
    forall i | 0 <= i < |queue| ensures now - window < queue[i] <= now {
      assert queue[i] == h[cut + i] && h[cut] <= h[cut + i];
    }
    WindowAll(queue, now - window, now);
  }

  /** With nothing accepted since, a full window has room again exactly once its oldest event has left. */
  lemma RefusedUntil(h: History, queue: seq<real>, now: real, limit: nat, window: real)
    requires QueueOk(h, queue, limit, window, now) && |queue| == limit >= 1 && window >= 0.0
    ensures FullUntil(h, limit, window, now, queue[0] + window)
  {
    forall later | later >= now ensures Full(h, limit, window, later) <==> later < queue[0] + window {
      FullAt(h, |h| - |queue|, now, window, later);
    }
  }

  lemma FullAt(h: History, cut: nat, now: real, window: real, later: real)
    requires Sorted(h) && cut < |h| && window >= 0.0 && h[|h| - 1] <= now <= later
    requires forall i :: 0 <= i < cut ==> h[i] <= now - window
    ensures InWindow(h, later - window, later) >= |h| - cut <==> later < h[cut] + window
  {
    var queue := h[cut..];
    assert h == h[..cut] + queue;
    WindowConcat(h[..cut], queue, later - window, later);
    WindowNone(h[..cut], later - window, later);
    if h[cut] + window <= later {
      OldestGone(queue, later - window, later);
    } else {
      AllStillIn(h, cut, later - window, later);
    }
  }

  lemma AllStillIn(h: History, cut: nat, from: real, to: real)
    requires Sorted(h) && cut < |h| && from < h[cut] && h[|h| - 1] <= to
    ensures InWindow(h[cut..], from, to) == |h| - cut
  {
    forall i | 0 <= i < |h[cut..]| ensures from < h[cut..][i] <= to {
      assert h[cut] <= h[cut + i] <= h[|h| - 1];
    }
    WindowAll(h[cut..], from, to);
  }

  lemma OldestGone(queue: seq<real>, from: real, to: real)
    requires queue != [] && queue[0] <= from
    ensures InWindow(queue, from, to) < |queue|
  {
    assert queue == [queue[0]] + queue[1..];
    WindowConcat([queue[0]], queue[1..], from, to);
    WindowNone([queue[0]], from, to);
    WindowAtMost(queue[1..], from, to);
  }

  lemma {:induction false} WindowAtMost(h: History, from: real, to: real)
    ensures InWindow(h, from, to) <= |h|
  {
    if h != [] {
      WindowAtMost(h[..|h| - 1], from, to);
    }
  }

  /** An acceptance with room in the window keeps the history spaced. */
  lemma NextIsSpaced(h: History, queue: seq<real>, now: real, limit: nat, window: real)
    requires QueueOk(h, queue, limit, window, now) && |queue| < limit
    ensures QueueOk(h + [now], queue + [now], limit, window, now)
  {}

  /** Over all uses of a limiter, no half-open window of its length ever holds more than limit acceptances. */
  lemma NeverOverLimit(limiter: InMemoryRateLimiter, key: string, from: real)
    requires limiter.Valid()
    ensures InWindow(limiter.History(key), from, from + limiter.Window()) <= limiter.limit
  {
    assert limiter.KeyValid(key);
    WindowBounded(limiter.History(key), limiter.limit, limiter.Window(), from);
  }
}
