/** The in-memory limiter: a fixed window per key, restarted by the first request after it has run out. */
module RateLimit {
  import opened Prelude

  type Time = int

  /** Requests counted since a window opened, and the last moment that belongs to it. */
  datatype Window = Window(count: nat, expiresAt: Time)

  type Windows = map<string, Window>

  predicate Expired(w: Window, now: Time) {
    now > w.expiresAt
  }

  predicate Running(ws: Windows, key: string, now: Time) {
    key in ws && !Expired(ws[key], now)
  }

  // ----- the specification -----

  /** One request: a running window counts it, otherwise a new window opens with it. */
  function Allow(ws: Windows, limit: int, per: nat, key: string, now: Time): (Windows, bool) {
    if Running(ws, key, now)
    then (ws[key := Window(ws[key].count + 1, ws[key].expiresAt)], ws[key].count + 1 <= limit)
    else (ws[key := Window(1, now + per)], true)
  }

  function Blocked(ws: Windows, limit: int, key: string, now: Time): bool {
    Running(ws, key, now) && ws[key].count >= limit
  }

  function RetryAfter(ws: Windows, key: string, now: Time): nat {
    if key in ws && ws[key].expiresAt - now > 0 then ws[key].expiresAt - now else 0
  }

  /** What is left once expired windows are dropped. */
  function Swept(ws: Windows, now: Time): Windows {
    map k | k in ws && !Expired(ws[k], now) :: ws[k]
  }

  /** The request as it is really served: opening a window sweeps the map first. */
  function SweepingAllow(ws: Windows, limit: int, per: nat, key: string, now: Time): (Windows, bool) {
    Allow(if Running(ws, key, now) then ws else Swept(ws, now), limit, per, key, now)
  }

  // ----- the implementation -----

  class Limiter {
    var windows: Windows
    const limit: int
    const window: nat

    constructor (limit: int, per: nat)
      ensures windows == map[] && this.limit == limit && this.window == per
    {
      windows, this.limit, this.window := map[], limit, per;
    }

    /** Drops expired entries, one key at a time. */
    method Sweep(now: Time)
      modifies this`windows
      ensures windows == Swept(old(windows), now)
    {
      var rest := windows.Keys;
      while rest != {}
        invariant rest <= old(windows).Keys
        invariant forall k :: k in windows <==> k in old(windows) && (k in rest || !Expired(old(windows)[k], now))
        invariant forall k :: k in windows ==> windows[k] == old(windows)[k]
      {
        var k :| k in rest;
        rest := rest - {k};
        if Expired(windows[k], now) {
          windows := windows - {k};
        }
      }
    }

    /** Records a request and reports whether it is within the limit. */
    method AllowRequest(key: string, now: Time) returns (ok: bool)
      modifies this`windows
      ensures (windows, ok) == SweepingAllow(old(windows), limit, window, key, now)
    {
      if key !in windows || Expired(windows[key], now) {
        Sweep(now);
        windows := windows[key := Window(1, now + window)];
        return true;
      }
      windows := windows[key := windows[key].(count := windows[key].count + 1)];
      return windows[key].count <= limit;
    }

    /** Reports whether a key is over its limit without counting the question. */
    method IsBlocked(key: string, now: Time) returns (blocked: bool)
      ensures blocked == Blocked(windows, limit, key, now)
    {
      if key !in windows || Expired(windows[key], now) {
        return false;
      }
      return windows[key].count >= limit;
    }

    method Wait(key: string, now: Time) returns (d: nat)
      ensures d == RetryAfter(windows, key, now)
    {
      if key !in windows {
        return 0;
      }
      if windows[key].expiresAt - now > 0 {
        return windows[key].expiresAt - now;
      }
      return 0;
    }
  }

  // ----- sweeping cannot be noticed -----

  /** The two maps differ in windows that have run out, if at all. */
  ghost predicate Alike(x: Windows, y: Windows, now: Time) {
    forall k :: (Running(x, k, now) <==> Running(y, k, now)) && (Running(x, k, now) ==> x[k] == y[k])
  }

  lemma SweptIsAlike(ws: Windows, now: Time)
    ensures Alike(Swept(ws, now), ws, now)
  {
  }

  lemma AlikeLater(x: Windows, y: Windows, now: Time, later: Time)
    requires Alike(x, y, now) && now <= later
    ensures Alike(x, y, later)
  {
    forall k
      ensures (Running(x, k, later) <==> Running(y, k, later)) && (Running(x, k, later) ==> x[k] == y[k])
    {
      assert Running(x, k, now) <==> Running(y, k, now);
    }
  }

  /** Alike maps give the same answers and stay alike. */
  lemma AlikeAnswers(x: Windows, y: Windows, limit: int, per: nat, key: string, now: Time)
    requires Alike(x, y, now)
    ensures Blocked(x, limit, key, now) == Blocked(y, limit, key, now)
    ensures RetryAfter(x, key, now) == RetryAfter(y, key, now)
    ensures var (x', a), (y', b) := SweepingAllow(x, limit, per, key, now), Allow(y, limit, per, key, now);
            a == b && Alike(x', y', now)
  {
    assert Running(x, key, now) <==> Running(y, key, now);
    SweptIsAlike(x, now);
    forall k
      ensures var x', y' := SweepingAllow(x, limit, per, key, now).0, Allow(y, limit, per, key, now).0;
              (Running(x', k, now) <==> Running(y', k, now)) && (Running(x', k, now) ==> x'[k] == y'[k])
    {
      assert Running(x, k, now) <==> Running(y, k, now);
    }
  }

  // ----- runs -----

  datatype Call = Request(key: string, now: Time) | AskBlocked(key: string, now: Time) | AskWait(key: string, now: Time)

  datatype Answer = Allowed(ok: bool) | IsOver(blocked: bool) | WaitFor(d: nat)

  function Serve(ws: Windows, limit: int, per: nat, sweeping: bool, call: Call): (Windows, Answer) {
    match call
    case Request(key, now) =>
      var (ws', ok) := if sweeping then SweepingAllow(ws, limit, per, key, now) else Allow(ws, limit, per, key, now);
      (ws', Allowed(ok))
    case AskBlocked(key, now) => (ws, IsOver(Blocked(ws, limit, key, now)))
    case AskWait(key, now) => (ws, WaitFor(RetryAfter(ws, key, now)))
  }

  /** The map and the answers after a run of calls from an empty limiter. */
  function ServeAll(limit: int, per: nat, sweeping: bool, calls: seq<Call>): (r: (Windows, seq<Answer>))
    ensures |r.1| == |calls|
  {
    if calls == [] then (map[], [])
    else
      var (ws, answers) := ServeAll(limit, per, sweeping, calls[..|calls| - 1]);
      var (ws', answer) := Serve(ws, limit, per, sweeping, calls[|calls| - 1]);
      (ws', answers + [answer])
  }

  /** The clock never runs backwards. */
  ghost predicate ClockForward(calls: seq<Call>) {
    forall i, j :: 0 <= i < j < |calls| ==> calls[i].now <= calls[j].now
  }

  /** A limiter that sweeps and one that never does answer every call alike. */
  lemma {:induction false} SweepingIsInvisible(limit: int, per: nat, calls: seq<Call>)
    requires ClockForward(calls)
    ensures ServeAll(limit, per, true, calls).1 == ServeAll(limit, per, false, calls).1
    ensures calls != [] ==>
              Alike(ServeAll(limit, per, true, calls).0, ServeAll(limit, per, false, calls).0, calls[|calls| - 1].now)
    decreases |calls|
  {
    hide Alike, SweepingAllow, Allow, Blocked, RetryAfter;
    if calls != [] {
      var front, last := calls[..|calls| - 1], calls[|calls| - 1];
      SweepingIsInvisible(limit, per, front);
      var x, y := ServeAll(limit, per, true, front).0, ServeAll(limit, per, false, front).0;
      if front == [] {
        EmptyIsAlike(last.now);
      } else {
        AlikeLater(x, y, front[|front| - 1].now, last.now);
      }
      AlikeAnswers(x, y, limit, per, last.key, last.now);
    }
  }

  lemma EmptyIsAlike(now: Time)
    ensures Alike(map[], map[], now)
  {
  }

  // ----- how much gets through -----

  /** How many of the given moments lie in [from, to]. */
  function CountWithin(times: seq<Time>, from: Time, to: Time): nat {
    if times == [] then 0
    else CountWithin(times[..|times| - 1], from, to) + if from <= times[|times| - 1] <= to then 1 else 0
  }

  /** When requests for a key were allowed, in order. */
  function AllowedTimes(limit: int, per: nat, calls: seq<Call>, key: string): (times: seq<Time>) {
    if calls == [] then []
    else
      var front, last := calls[..|calls| - 1], calls[|calls| - 1];
      var times := AllowedTimes(limit, per, front, key);
      if last.Request? && last.key == key && ServeAll(limit, per, true, calls).1[|front|] == Allowed(true)
      then times + [last.now] else times
  }

  function Most(limit: int): nat {
    if limit < 1 then 1 else limit
  }

  lemma CountSnoc(times: seq<Time>, x: Time, from: Time, to: Time)
    ensures CountWithin(times + [x], from, to) == CountWithin(times, from, to) + if from <= x <= to then 1 else 0
  {
    assert (times + [x])[..|times|] == times;
  }

  lemma {:induction false} CountAtMost(times: seq<Time>, from: Time, to: Time)
    ensures CountWithin(times, from, to) <= |times|
  {
    if times != [] {
      CountAtMost(times[..|times| - 1], from, to);
    }
  }

  lemma {:induction false} CountConcat(xs: seq<Time>, ys: seq<Time>, from: Time, to: Time)
    ensures CountWithin(xs + ys, from, to) == CountWithin(xs, from, to) + CountWithin(ys, from, to)
    decreases |ys|
  {
    if ys == [] {
      assert xs + ys == xs;
    } else {
      var n := |ys| - 1;
      CountConcat(xs, ys[..n], from, to);
      assert xs + ys == (xs + ys[..n]) + [ys[n]];
      CountSnoc(xs + ys[..n], ys[n], from, to);
    }
  }

  lemma {:induction false} CountInside(times: seq<Time>, from: Time, to: Time, from': Time, to': Time)
    requires forall i :: 0 <= i < |times| && from' <= times[i] <= to' ==> from <= times[i] <= to
    ensures CountWithin(times, from', to') <= CountWithin(times, from, to)
  {
    if times != [] {
      CountInside(times[..|times| - 1], from, to, from', to');
    }
  }

  lemma {:induction false} CountNone(times: seq<Time>, from: Time, to: Time)
    requires forall i :: 0 <= i < |times| ==> times[i] < from || to < times[i]
    ensures CountWithin(times, from, to) == 0
  {
    if times != [] {
      CountNone(times[..|times| - 1], from, to);
    }
  }

  /**
   The allowed moments split at p: those of earlier windows, of which the stretch just before the current window
   opened holds at most one window's worth without its first, and those of the current window, which its first opened.
   */
  ghost predicate SplitAt(times: seq<Time>, p: int, w: Window, limit: int, per: nat) {
    var begun := w.expiresAt - per;
    && 0 <= p < |times| && times[p] == begun
    && |times| - p <= Most(limit) && |times| - p <= w.count && (w.count < Most(limit) ==> |times| - p == w.count)
    && (forall i :: 0 <= i < p ==> times[i] < begun)
    && (forall i :: p <= i < |times| ==> begun <= times[i] <= w.expiresAt)
    && CountWithin(times[..p], begun - per, begun) < Most(limit)
  }

  /** A request on a running window keeps the split where it is. */
  lemma SplitCounts(times: seq<Time>, p: int, w: Window, limit: int, per: nat, now: Time)
    requires SplitAt(times, p, w, limit, per) && w.expiresAt - per <= now <= w.expiresAt && w.count >= 1
    ensures var w' := Window(w.count + 1, w.expiresAt);
            SplitAt(if w.count + 1 <= limit then times + [now] else times, p, w', limit, per)
  {
    hide CountWithin;
    assert (times + [now])[..p] == times[..p];
  }

  /** A new window opens after the last one has run out, so the moment that one opened is out of reach. */
  lemma SplitOpens(times: seq<Time>, p: int, w: Window, limit: int, per: nat, now: Time)
    requires SplitAt(times, p, w, limit, per) && now > w.expiresAt
    ensures SplitAt(times + [now], |times|, Window(1, now + per), limit, per)
  {
    hide CountWithin;
    var more := times + [now];
    assert more[..|times|] == times;
    assert times == times[..p + 1] + times[p + 1..];
    CountConcat(times[..p + 1], times[p + 1..], now - per, now);
    CountNone(times[..p + 1], now - per, now);
    CountAtMost(times[p + 1..], now - per, now);
  }

  /** Every stretch as long as a window that reaches into the current one holds at most two windows' worth less one. */
  lemma SplitBounds(times: seq<Time>, p: int, w: Window, limit: int, per: nat, t: Time)
    requires SplitAt(times, p, w, limit, per) && t >= w.expiresAt - per - per
    ensures CountWithin(times, t, t + per) < 2 * Most(limit)
  {
    hide CountWithin;
    var begun := w.expiresAt - per;
    assert times == times[..p] + times[p..];
    CountConcat(times[..p], times[p..], t, t + per);
    CountInside(times[..p], begun - per, begun, t, t + per);
    CountAtMost(times[p..], t, t + per);
  }

  /** How a key's window and the moments allowed so far fit together. */
  ghost predicate Fits(ws: Windows, key: string, times: seq<Time>, limit: int, per: nat, now: Time) {
    if key !in ws then times == []
    else
      && ws[key].count >= 1 && ws[key].expiresAt - per <= now
      && exists p :: SplitAt(times, p, ws[key], limit, per)
  }

  lemma RequestFits(ws: Windows, key: string, times: seq<Time>, limit: int, per: nat, before: Time, now: Time, t: Time)
    requires Fits(ws, key, times, limit, per, before) && before <= now
    ensures var (ws', ok) := Allow(ws, limit, per, key, now);
            Fits(ws', key, if ok then times + [now] else times, limit, per, now)
    ensures Allow(ws, limit, per, key, now).1 && t <= now <= t + per ==>
              CountWithin(times + [now], t, t + per) < 2 * Most(limit)
  {
    hide SplitAt;
    var (ws', ok) := Allow(ws, limit, per, key, now);
    var more, at := if ok then times + [now] else times, 0;
    if Running(ws, key, now) {
      var p :| SplitAt(times, p, ws[key], limit, per);
      SplitCounts(times, p, ws[key], limit, per, now);
      at := p;
    } else if key in ws {
      var p :| SplitAt(times, p, ws[key], limit, per);
      SplitOpens(times, p, ws[key], limit, per, now);
      at := |times|;
    } else {
      FirstRequest(limit, per, now);
    }
    assert SplitAt(more, at, ws'[key], limit, per);
    if ok && t <= now <= t + per {
      SplitBounds(more, at, ws'[key], limit, per, t);
    }
  }

  lemma FirstRequest(limit: int, per: nat, now: Time)
    ensures SplitAt([] + [now], 0, Window(1, now + per), limit, per)
  {
  }

  lemma {:induction false} RunFits(limit: int, per: nat, calls: seq<Call>, key: string, t: Time)
    requires ClockForward(calls)
    ensures calls != [] ==>
              Fits(ServeAll(limit, per, false, calls).0, key, AllowedTimes(limit, per, calls, key), limit, per,
                   calls[|calls| - 1].now)
    ensures calls == [] ==> AllowedTimes(limit, per, calls, key) == []
    ensures CountWithin(AllowedTimes(limit, per, calls, key), t, t + per) < 2 * Most(limit)
    decreases |calls|
  {
    hide Fits, Allow, SweepingAllow, Blocked, RetryAfter, CountWithin;
    if calls == [] {
      CountNone([], t, t + per);
    } else {
      var front, last := calls[..|calls| - 1], calls[|calls| - 1];
      RunFits(limit, per, front, key, t);
      SweepingIsInvisible(limit, per, calls);
      var ws, times := ServeAll(limit, per, false, front).0, AllowedTimes(limit, per, front, key);
      var before := if front == [] then last.now else front[|front| - 1].now;
      if front == [] {
        NothingFits(key, limit, per, last.now);
      }
      if last.Request? {
        if last.key == key {
          RequestFits(ws, key, times, limit, per, before, last.now, t);
          CountSnoc(times, last.now, t, t + per);
        } else {
          OtherKeyFits(ws, key, times, limit, per, before, last.now, last.key);
        }
      } else {
        LaterFits(ws, key, times, limit, per, before, last.now);
      }
    }
  }

  lemma NothingFits(key: string, limit: int, per: nat, now: Time)
    ensures Fits(map[], key, [], limit, per, now)
  {
  }

  lemma LaterFits(ws: Windows, key: string, times: seq<Time>, limit: int, per: nat, before: Time, now: Time)
    requires Fits(ws, key, times, limit, per, before) && before <= now
    ensures Fits(ws, key, times, limit, per, now)
  {
    hide SplitAt;
  }

  lemma OtherKeyFits(ws: Windows, key: string, times: seq<Time>, limit: int, per: nat, before: Time, now: Time, other: string)
    requires Fits(ws, key, times, limit, per, before) && before <= now && other != key
    ensures Fits(Allow(ws, limit, per, other, now).0, key, times, limit, per, now)
  {
    hide SplitAt;
  }

  /** Any stretch of time as long as a window, ends included, sees at most twice the limit less one allowed for a key. */
  lemma SlidingBound(limit: int, per: nat, calls: seq<Call>, key: string, t: Time)
    requires ClockForward(calls) && limit >= 1
    ensures CountWithin(AllowedTimes(limit, per, calls, key), t, t + per) <= 2 * limit - 1
  {
    hide AllowedTimes, CountWithin;
    RunFits(limit, per, calls, key, t);
  }

  // ----- and that many do -----

  /** The same request n times at one moment. */
  function Burst(key: string, now: Time, n: nat): (calls: seq<Call>)
    ensures |calls| == n
  {
    seq(n, _ => Request(key, now))
  }

  /** One request at 0, the rest of its window's at its last moment, and a full window at the moment after. */
  function BusyRun(limit: int, per: nat, key: string): seq<Call>
    requires limit >= 1
  {
    ([Request(key, 0)] + Burst(key, per, limit - 1)) + ([Request(key, per + 1)] + Burst(key, per + 1, limit - 1))
  }

  lemma ServeSnoc(limit: int, per: nat, calls: seq<Call>, call: Call, key: string)
    ensures var (ws, answer) := Serve(ServeAll(limit, per, true, calls).0, limit, per, true, call);
            && ServeAll(limit, per, true, calls + [call]).0 == ws
            && AllowedTimes(limit, per, calls + [call], key) ==
               AllowedTimes(limit, per, calls, key)
               + if call.Request? && call.key == key && answer == Allowed(true) then [call.now] else []
  {
    hide Serve;
    assert (calls + [call])[..|calls|] == calls;
  }

  /** Requests that a running window has room for are all allowed. */
  lemma {:induction false} BurstServed(limit: int, per: nat, calls: seq<Call>, key: string, w: Window, now: Time, n: nat, t: Time)
    requires ServeAll(limit, per, true, calls).0 == map[key := w] && now <= w.expiresAt && w.count + n <= limit
    ensures var all := calls + Burst(key, now, n);
            && ServeAll(limit, per, true, all).0 == map[key := Window(w.count + n, w.expiresAt)]
            && CountWithin(AllowedTimes(limit, per, all, key), t, t + per) ==
               CountWithin(AllowedTimes(limit, per, calls, key), t, t + per) + if t <= now <= t + per then n else 0
    decreases n
  {
    hide ServeAll, AllowedTimes, CountWithin;
    if n == 0 {
      assert calls + Burst(key, now, 0) == calls;
    } else {
      BurstServed(limit, per, calls, key, w, now, n - 1, t);
      var front := calls + Burst(key, now, n - 1);
      assert calls + Burst(key, now, n) == front + [Request(key, now)];
      ServeSnoc(limit, per, front, Request(key, now), key);
      CountSnoc(AllowedTimes(limit, per, front, key), now, t, t + per);
    }
  }

  /** A request with no window running opens one. */
  lemma OpeningServed(limit: int, per: nat, calls: seq<Call>, key: string, now: Time, t: Time)
    requires var ws := ServeAll(limit, per, true, calls).0; ws.Keys <= {key} && !Running(ws, key, now)
    ensures var all := calls + [Request(key, now)];
            && ServeAll(limit, per, true, all).0 == map[key := Window(1, now + per)]
            && CountWithin(AllowedTimes(limit, per, all, key), t, t + per) ==
               CountWithin(AllowedTimes(limit, per, calls, key), t, t + per) + if t <= now <= t + per then 1 else 0
  {
    hide ServeAll, AllowedTimes, CountWithin;
    ServeSnoc(limit, per, calls, Request(key, now), key);
    CountSnoc(AllowedTimes(limit, per, calls, key), now, t, t + per);
    var ws := Swept(ServeAll(limit, per, true, calls).0, now);
    assert ws == map[];
  }

  /** The bound is sharp whenever a window lasts at all. */
  lemma SlidingBoundIsReached(limit: int, per: nat, key: string)
    requires limit >= 1 && per >= 1
    ensures ClockForward(BusyRun(limit, per, key))
    ensures CountWithin(AllowedTimes(limit, per, BusyRun(limit, per, key), key), 1, 1 + per) == 2 * limit - 1
  {
    hide ServeAll, AllowedTimes, CountWithin;
    assert ServeAll(limit, per, true, []).0 == map[] && CountWithin(AllowedTimes(limit, per, [], key), 1, 1 + per) == 0 by {
      NothingServed(limit, per, key);
    }
    var c1 := [] + [Request(key, 0)];
    OpeningServed(limit, per, [], key, 0, 1);
    var c2 := c1 + Burst(key, per, limit - 1);
    BurstServed(limit, per, c1, key, Window(1, per), per, limit - 1, 1);
    var c3 := c2 + [Request(key, per + 1)];
    OpeningServed(limit, per, c2, key, per + 1, 1);
    BurstServed(limit, per, c3, key, Window(1, per + 1 + per), per + 1, limit - 1, 1);
    assert BusyRun(limit, per, key) == c3 + Burst(key, per + 1, limit - 1);
  }

  lemma NothingServed(limit: int, per: nat, key: string)
    ensures ServeAll(limit, per, true, []).0 == map[] && CountWithin(AllowedTimes(limit, per, [], key), 1, 1 + per) == 0
  {
  }

  // ----- what is refused -----

  /** When requests for a key came in, allowed or not. */
  function RequestTimes(calls: seq<Call>, key: string): seq<Time> {
    if calls == [] then []
    else
      var times, last := RequestTimes(calls[..|calls| - 1], key), calls[|calls| - 1];
      if last.Request? && last.key == key then times + [last.now] else times
  }

  /** A running window has counted no more requests than came in since it opened. */
  ghost predicate CountsRequests(ws: Windows, key: string, times: seq<Time>, per: nat, now: Time) {
    key in ws ==>
      ws[key].expiresAt - per <= now && ws[key].count <= CountWithin(times, ws[key].expiresAt - per, now)
  }

  lemma RequestCounts(ws: Windows, limit: int, per: nat, key: string, times: seq<Time>, before: Time, now: Time)
    requires CountsRequests(ws, key, times, per, before) && before <= now
    ensures var (ws', ok) := Allow(ws, limit, per, key, now);
            CountsRequests(ws', key, times + [now], per, now)
            && (!ok ==> CountWithin(times + [now], now - per, now) > limit)
  {
    hide CountWithin;
    if Running(ws, key, now) {
      var begun := ws[key].expiresAt - per;
      CountInside(times, begun, now, begun, before);
      CountSnoc(times, now, begun, now);
      CountInside(times + [now], now - per, now, begun, now);
    } else {
      CountSnoc(times, now, now, now);
    }
  }

  lemma LaterCounts(ws: Windows, key: string, times: seq<Time>, per: nat, before: Time, now: Time)
    requires CountsRequests(ws, key, times, per, before) && before <= now
    ensures CountsRequests(ws, key, times, per, now)
  {
    hide CountWithin;
    if key in ws {
      CountInside(times, ws[key].expiresAt - per, now, ws[key].expiresAt - per, before);
    }
  }

  lemma {:induction false} RunCounts(limit: int, per: nat, calls: seq<Call>, key: string)
    requires ClockForward(calls)
    ensures calls != [] ==>
              CountsRequests(ServeAll(limit, per, false, calls).0, key, RequestTimes(calls, key), per, calls[|calls| - 1].now)
    decreases |calls|
  {
    hide CountsRequests, Allow, SweepingAllow, Blocked, RetryAfter;
    if calls != [] {
      var front, last := calls[..|calls| - 1], calls[|calls| - 1];
      RunCounts(limit, per, front, key);
      var ws, times := ServeAll(limit, per, false, front).0, RequestTimes(front, key);
      var before := if front == [] then last.now else front[|front| - 1].now;
      if front == [] {
        NothingCounted(key, per, last.now);
      }
      if last.Request? && last.key == key {
        RequestCounts(ws, limit, per, key, times, before, last.now);
      } else {
        LaterCounts(ws, key, times, per, before, last.now);
        OtherKeyCounts(ws, limit, per, key, times, last);
      }
    }
  }

  lemma NothingCounted(key: string, per: nat, now: Time)
    ensures CountsRequests(map[], key, [], per, now)
  {
  }

  lemma OtherKeyCounts(ws: Windows, limit: int, per: nat, key: string, times: seq<Time>, call: Call)
    requires CountsRequests(ws, key, times, per, call.now) && !(call.Request? && call.key == key)
    ensures CountsRequests(Serve(ws, limit, per, false, call).0, key, times, per, call.now)
  {
    hide CountWithin;
  }

  /** A request is refused only when more than the limit came in for its key within a window's length, itself included. */
  lemma RefusedOnlyWhenBusy(limit: int, per: nat, calls: seq<Call>, key: string)
    requires ClockForward(calls) && calls != []
    requires calls[|calls| - 1].Request? && calls[|calls| - 1].key == key
    requires ServeAll(limit, per, true, calls).1[|calls| - 1] == Allowed(false)
    ensures var now := calls[|calls| - 1].now; CountWithin(RequestTimes(calls, key), now - per, now) > limit
  {
    hide CountsRequests, Allow, SweepingAllow, CountWithin;
    var front, last := calls[..|calls| - 1], calls[|calls| - 1];
    SweepingIsInvisible(limit, per, calls);
    RunCounts(limit, per, front, key);
    if front == [] {
      NothingCounted(key, per, last.now);
    }
    RequestCounts(ServeAll(limit, per, false, front).0, limit, per, key, RequestTimes(front, key),
                  if front == [] then last.now else front[|front| - 1].now, last.now);
  }

  // ----- how long to wait -----

  /**
   The answer to how long is exact: a request at the end of that time still falls into the window, whether allowed or
   not, and one just after it opens a new one and is allowed.
   */
  lemma WaitIsExact(ws: Windows, limit: int, per: nat, key: string, now: Time)
    requires Running(ws, key, now)
    ensures var d := RetryAfter(ws, key, now);
            && Running(ws, key, now + d) && !Running(ws, key, now + d + 1)
            && Allow(ws, limit, per, key, now + d).0[key] == Window(ws[key].count + 1, ws[key].expiresAt)
            && Allow(ws, limit, per, key, now + d + 1) == (ws[key := Window(1, now + d + 1 + per)], true)
            && (Blocked(ws, limit, key, now) ==> forall t :: now <= t <= now + d ==> !Allow(ws, limit, per, key, t).1)
    ensures Blocked(ws, limit, key, now) <==> !Allow(ws, limit, per, key, now).1
  {
  }

  /** And with no window running there is nothing to wait for. */
  lemma NoWait(ws: Windows, limit: int, per: nat, key: string, now: Time)
    requires !Running(ws, key, now)
    ensures RetryAfter(ws, key, now) == 0 && !Blocked(ws, limit, key, now) && Allow(ws, limit, per, key, now).1
  {
  }
}
