/** The in-memory sliding-window limiter. Times are seconds of a monotonic clock. */
module RateLimiter {

  const WINDOW: real := 60.0

  ghost predicate Ascending(ts: seq<real>) {
    forall i, j | 0 <= i < j < |ts| :: ts[i] <= ts[j]
  }

  ghost predicate NotAfter(ts: seq<real>, now: real) {
    forall i | 0 <= i < |ts| :: ts[i] <= now
  }

  /** The requests after `cutoff`. */
  function After(ts: seq<real>, cutoff: real): seq<real> {
    if ts == [] then [] else (if ts[0] > cutoff then [ts[0]] else []) + After(ts[1..], cutoff)
  }

  /** How many lie from `from` on and before `to`. */
  function Between(ts: seq<real>, from: real, to: real): nat {
    if ts == [] then 0 else (if from <= ts[0] < to then 1 else 0) + Between(ts[1..], from, to)
  }

  /** The history of admitted requests after one more arrives at `now`. */
  function Admit(history: seq<real>, now: real, limit: int): seq<real> {
    if |After(history, now - WINDOW)| < limit then history + [now] else history
  }

  /** A request at a time, under the limit of its policy. */
  datatype Arrival = Arrival(at: real, limit: int)

  /** What is admitted of a stream of requests. */
  function Admitted(arrivals: seq<Arrival>): seq<real>
    decreases |arrivals|
  {
    if arrivals == [] then []
    else
      var last := arrivals[|arrivals| - 1];
      Admit(Admitted(arrivals[..|arrivals| - 1]), last.at, last.limit)
  }

  ghost predicate InOrder(arrivals: seq<Arrival>) {
    forall i, j | 0 <= i < j < |arrivals| :: arrivals[i].at <= arrivals[j].at
  }

  ghost predicate Within(arrivals: seq<Arrival>, limit: int) {
    forall i | 0 <= i < |arrivals| :: arrivals[i].limit <= limit
  }

  /* ---------- the deque ---------- */

  /** Dropping what has expired from the front is filtering. */
  lemma {:induction false} AfterIsSuffix(ts: seq<real>, cutoff: real, n: nat)
    requires Ascending(ts) && n <= |ts| && (forall i | 0 <= i < n :: ts[i] <= cutoff) && (n < |ts| ==> ts[n] > cutoff)
    ensures After(ts, cutoff) == ts[n..]
    decreases |ts|
  {
    if ts != [] {
      if n > 0 {
        AfterIsSuffix(ts[1..], cutoff, n - 1);
        assert ts[1..][n - 1..] == ts[n..];
      } else {
        AllAfter(ts, cutoff);
      }
    }
  }

  lemma {:induction false} AllAfter(ts: seq<real>, cutoff: real)
    requires forall i | 0 <= i < |ts| :: ts[i] > cutoff
    ensures After(ts, cutoff) == ts
    decreases |ts|
  {
    if ts != [] {
      AllAfter(ts[1..], cutoff);
      assert ts == [ts[0]] + ts[1..];
    }
  }

  /** Filtering again with a later cutoff forgets nothing that matters. */
  lemma {:induction false} AfterAfter(ts: seq<real>, early: real, late: real)
    requires early <= late
    ensures After(After(ts, early), late) == After(ts, late)
    decreases |ts|
  {
    if ts != [] {
      AfterAfter(ts[1..], early, late);
      var rest := After(ts[1..], early);
      if ts[0] > early {
        assert After(ts, early) == [ts[0]] + rest;
        assert ([ts[0]] + rest)[1..] == rest;
      } else {
        assert After(ts, early) == rest;
      }
    }
  }

  lemma {:induction false} AfterAppend(ts: seq<real>, t: real, cutoff: real)
    ensures After(ts + [t], cutoff) == After(ts, cutoff) + if t > cutoff then [t] else []
    decreases |ts|
  {
    if ts == [] {
      assert ts + [t] == [t];
    } else {
      AfterAppend(ts[1..], t, cutoff);
      assert (ts + [t])[1..] == ts[1..] + [t];
    }
  }

  lemma {:induction false} AfterAscending(ts: seq<real>, cutoff: real, now: real)
    requires Ascending(ts) && NotAfter(ts, now)
    ensures Ascending(After(ts, cutoff)) && NotAfter(After(ts, cutoff), now)
    ensures forall i | 0 <= i < |After(ts, cutoff)| :: ts != [] && After(ts, cutoff)[i] >= ts[0]
    decreases |ts|
  {
    if ts != [] {
      AfterAscending(ts[1..], cutoff, now);
    }
  }

  /** Pops what has expired from the front. */
  method Prune(bucket: seq<real>, cutoff: real) returns (kept: seq<real>)
    requires Ascending(bucket)
    ensures kept == After(bucket, cutoff)
  {
    kept := bucket;
    ghost var dropped := 0;
    while kept != [] && kept[0] <= cutoff
      invariant dropped <= |bucket| && kept == bucket[dropped..]
      invariant forall i | 0 <= i < dropped :: bucket[i] <= cutoff
      decreases |kept|
    {
      kept := kept[1..];
      dropped := dropped + 1;
    }
    AfterIsSuffix(bucket, cutoff, dropped);
  }

  /** The deque is the history filtered to the last minute. */
  ghost predicate Tracks(bucket: seq<real>, history: seq<real>, last: real) {
    Ascending(history) && NotAfter(history, last) && bucket == After(history, last - WINDOW)
  }

  lemma TracksOn(bucket: seq<real>, h: seq<real>, last: real, now: real)
    requires Tracks(bucket, h, last) && last <= now
    ensures Ascending(bucket) && After(bucket, now - WINDOW) == After(h, now - WINDOW)
  {
    AfterAscending(h, last - WINDOW, last);
    AfterAfter(h, last - WINDOW, now - WINDOW);
  }

  lemma TracksAdmit(h: seq<real>, now: real, limit: int)
    requires Ascending(h) && NotAfter(h, now)
    ensures var recent := After(h, now - WINDOW);
            Tracks(if |recent| < limit then recent + [now] else recent, Admit(h, now, limit), now)
  {
    AfterAppend(h, now, now - WINDOW);
  }

  /** One bucket's turn: expired requests leave, and the new one enters if there is room. */
  method Turn(bucket: seq<real>, limit: int, now: real, ghost h: seq<real>, ghost last: real)
    returns (next: seq<real>, ok: bool)
    requires Tracks(bucket, h, last) && last <= now
    ensures ok <==> |After(h, now - WINDOW)| < limit
    ensures Tracks(next, Admit(h, now, limit), now)
  {
    TracksOn(bucket, h, last, now);
    next := Prune(bucket, now - WINDOW);
    ok := |next| < limit;
    TracksAdmit(h, now, limit);
    if ok {
      next := next + [now];
    }
  }

  /** All requests that ever arrived under a key, and the time of the last one. */
  datatype Log = Log(arrivals: seq<Arrival>, last: real)

  ghost predicate Kept(log: Log) {
    log.arrivals != [] && InOrder(log.arrivals) && log.arrivals[|log.arrivals| - 1].at == log.last
  }

  lemma KeptOn(arrivals: seq<Arrival>, last: real, a: Arrival)
    requires arrivals != [] ==> Kept(Log(arrivals, last)) && last <= a.at
    ensures Kept(Log(arrivals + [a], a.at)) && Admitted(arrivals + [a]) == Admit(Admitted(arrivals), a.at, a.limit)
  {
    assert (arrivals + [a])[..|arrivals|] == arrivals;
  }

  class Limiter {
    var buckets: map<string, seq<real>>
    ghost var logs: map<string, Log>

    ghost predicate Valid()
      reads this
    {
      && buckets.Keys == logs.Keys && (forall k | k in logs :: Kept(logs[k]))
      && (forall k | k in logs :: Tracks(buckets[k], Admitted(logs[k].arrivals), logs[k].last))
    }

    ghost function Arrivals(key: string): seq<Arrival>
      reads this
    {
      if key in logs then logs[key].arrivals else []
    }

    constructor ()
      ensures Valid() && logs == map[]
    {
      buckets, logs := map[], map[];
    }

    /** Admits the request exactly when fewer than `limit` were admitted in the last minute; the deque is then what was
        admitted of all arrivals, filtered to that minute, and other keys are left alone. */
    method Allow(key: string, limit: int, now: real) returns (ok: bool)
      requires Valid() && (key in logs ==> logs[key].last <= now)
      modifies this
      ensures Valid() && logs == old(logs)[key := Log(old(Arrivals(key)) + [Arrival(now, limit)], now)]
      ensures ok <==> |After(Admitted(old(Arrivals(key))), now - 60.0)| < limit
      ensures buckets == old(buckets)[key := After(Admitted(logs[key].arrivals), now - 60.0)]
    {
      var bucket := if key in buckets then buckets[key] else [];
      ghost var before, last := Arrivals(key), if key in logs then logs[key].last else now;
      KeptOn(before, last, Arrival(now, limit));
      bucket, ok := Turn(bucket, limit, now, Admitted(before), last);
      buckets := buckets[key := bucket];
      logs := logs[key := Log(before + [Arrival(now, limit)], now)];
    }

    /** Under any key whose policy never allows more than `limit`, every minute has admitted at most that many. */
    lemma WindowsWithinLimit(key: string, limit: int, from: real)
      requires Valid() && Within(Arrivals(key), limit)
      ensures Between(Admitted(Arrivals(key)), from, from + 60.0) <= if limit > 0 then limit else 0
    {
      if key in logs {
        assert Kept(logs[key]);
      }
      EveryWindowWithinLimit(Arrivals(key), limit, from);
    }
  }

  /* ---------- every window ---------- */

  /** A request and the one `limit` places before it are at least a minute apart. */
  ghost predicate Spaced(h: seq<real>, limit: int) {
    forall j | limit <= j < |h| && limit > 0 :: h[j] - h[j - limit] >= WINDOW
  }

  lemma {:induction false} AfterLength(h: seq<real>, cutoff: real, k: nat)
    requires Ascending(h) && k <= |h| && (forall i | k <= i < |h| :: h[i] > cutoff)
    ensures |After(h, cutoff)| >= |h| - k
    decreases |h|
  {
    if k > 0 {
      AfterLength(h[1..], cutoff, k - 1);
    } else {
      AllAfter(h, cutoff);
    }
  }

  lemma AdmitKeepsSpacing(h: seq<real>, now: real, own: int, limit: int)
    requires Ascending(h) && NotAfter(h, now) && Spaced(h, limit) && own <= limit
    ensures var h' := Admit(h, now, own); Ascending(h') && NotAfter(h', now) && Spaced(h', limit)
  {
    if |After(h, now - WINDOW)| < own && |h| >= limit {
      var k := |h| - limit;
      if h[k] > now - WINDOW {
        AfterLength(h, now - WINDOW, k);
        assert false;
      }
    }
  }

  lemma {:induction false} AdmittedIsSpaced(arrivals: seq<Arrival>, limit: int)
    requires InOrder(arrivals) && Within(arrivals, limit)
    ensures Ascending(Admitted(arrivals)) && Spaced(Admitted(arrivals), limit)
    ensures arrivals != [] ==> NotAfter(Admitted(arrivals), arrivals[|arrivals| - 1].at)
    ensures limit <= 0 ==> Admitted(arrivals) == []
    decreases |arrivals|
  {
    if arrivals != [] {
      var n := |arrivals| - 1;
      AdmittedIsSpaced(arrivals[..n], limit);
      AdmitKeepsSpacing(Admitted(arrivals[..n]), arrivals[n].at, arrivals[n].limit, limit);
    }
  }

  lemma {:induction false} NoneBetween(h: seq<real>, from: real, to: real)
    requires forall i | 0 <= i < |h| :: !(from <= h[i] < to)
    ensures Between(h, from, to) == 0
    decreases |h|
  {
    if h != [] {
      NoneBetween(h[1..], from, to);
    }
  }

  lemma {:induction false} BetweenAtMost(h: seq<real>, from: real, to: real)
    ensures Between(h, from, to) <= |h|
    decreases |h|
  {
    if h != [] {
      BetweenAtMost(h[1..], from, to);
    }
  }

  lemma {:induction false} BetweenConcat(a: seq<real>, b: seq<real>, from: real, to: real)
    ensures Between(a + b, from, to) == Between(a, from, to) + Between(b, from, to)
    decreases |a|
  {
    if a == [] {
      assert a + b == b;
    } else {
      BetweenConcat(a[1..], b, from, to);
      assert (a + b)[1..] == a[1..] + b;
    }
  }

  /** In a spaced history no window holds more than the limit. */
  lemma {:induction false} SpacedWindow(h: seq<real>, limit: int, from: real)
    requires Ascending(h) && Spaced(h, limit) && limit > 0
    ensures Between(h, from, from + WINDOW) <= limit
    decreases |h|
  {
    var n := |h|;
    if n <= limit {
      BetweenAtMost(h, from, from + WINDOW);
    } else if h[n - 1] >= from + WINDOW {
      SpacedWindow(h[..n - 1], limit, from);
      BetweenConcat(h[..n - 1], [h[n - 1]], from, from + WINDOW);
      assert h == h[..n - 1] + [h[n - 1]];
      NoneBetween([h[n - 1]], from, from + WINDOW);
    } else {
      assert h[n - 1] - h[n - 1 - limit] >= WINDOW;
      LateOnes(h, limit, from);
    }
  }

  /** When the last request lies before the end of the window, all but the last `limit` lie before its start. */
  lemma LateOnes(h: seq<real>, limit: int, from: real)
    requires Ascending(h) && 0 < limit < |h| && h[|h| - 1 - limit] < from
    ensures Between(h, from, from + WINDOW) <= limit
  {
    var k := |h| - limit;
    var early, late := h[..k], h[k..];
    assert h == early + late;
    NoneBetween(early, from, from + WINDOW);
    BetweenAtMost(late, from, from + WINDOW);
    BetweenConcat(early, late, from, from + WINDOW);
  }

  /** Of any stream of requests under limits of at most `limit`, every window of a minute admits at most that many. */
  lemma EveryWindowWithinLimit(arrivals: seq<Arrival>, limit: int, from: real)
    requires InOrder(arrivals) && Within(arrivals, limit)
    ensures Between(Admitted(arrivals), from, from + 60.0) <= if limit > 0 then limit else 0
  {
    AdmittedIsSpaced(arrivals, limit);
    if limit > 0 {
      SpacedWindow(Admitted(arrivals), limit, from);
    }
  }

  /** A request is turned away exactly when the minute before it holds its limit of admitted ones; under one limit it
      never holds more. */
  lemma DeniedOnlyWhenFull(arrivals: seq<Arrival>, a: Arrival)
    requires InOrder(arrivals + [a])
    ensures Admitted(arrivals + [a]) == Admitted(arrivals) <==> |After(Admitted(arrivals), a.at - 60.0)| >= a.limit
    ensures Within(arrivals, a.limit) ==> |After(Admitted(arrivals), a.at - 60.0)| <= if a.limit > 0 then a.limit
              else 0
  {
    AdmittedLast(arrivals, a);
    if Within(arrivals, a.limit) {
      InOrderFront(arrivals, a);
      RecentlyAdmitted(arrivals, a);
    }
  }

  lemma AdmittedLast(arrivals: seq<Arrival>, a: Arrival)
    ensures Admitted(arrivals + [a]) == Admit(Admitted(arrivals), a.at, a.limit)
  {
    assert (arrivals + [a])[..|arrivals|] == arrivals;
  }

  lemma RecentlyAdmitted(arrivals: seq<Arrival>, a: Arrival)
    requires InOrder(arrivals) && Within(arrivals, a.limit)
    requires arrivals != [] ==> arrivals[|arrivals| - 1].at <= a.at
    ensures |After(Admitted(arrivals), a.at - WINDOW)| <= if a.limit > 0 then a.limit else 0
  {
    AdmittedIsSpaced(arrivals, a.limit);
    if a.limit > 0 && arrivals != [] {
      RecentWithinLimit(Admitted(arrivals), a.limit, a.at);
    }
  }

  lemma InOrderFront(arrivals: seq<Arrival>, a: Arrival)
    requires InOrder(arrivals + [a])
    ensures InOrder(arrivals) && (arrivals != [] ==> arrivals[|arrivals| - 1].at <= a.at)
  {
    var all := arrivals + [a];
    assert forall i | 0 <= i < |arrivals| :: all[i] == arrivals[i];
    assert arrivals != [] ==> all[|arrivals| - 1].at <= all[|arrivals|].at;
  }

  lemma RecentWithinLimit(h: seq<real>, limit: int, now: real)
    requires Ascending(h) && Spaced(h, limit) && NotAfter(h, now) && limit > 0
    ensures |After(h, now - WINDOW)| <= limit
  {
    if |h| > limit {
      var k := |h| - limit;
      assert h[|h| - 1] - h[k - 1] >= WINDOW;
      AfterAtMost(h, now - WINDOW, k);
    } else {
      AfterAtMost(h, now - WINDOW, 0);
    }
  }

  lemma {:induction false} AfterAtMost(h: seq<real>, cutoff: real, k: nat)
    requires k <= |h| && forall i | 0 <= i < k :: h[i] <= cutoff
    ensures |After(h, cutoff)| <= |h| - k
    decreases |h|
  {
    if h != [] {
      AfterAtMost(h[1..], cutoff, if k > 0 then k - 1 else 0);
    }
  }
}
