/** The fixed-window limiter of one API key, over whole histories of requests. */
module RateLimiter {
  /** Window state in memory: start 0 means no window yet. */
  datatype Window = Window(start: int, count: nat)

  datatype Decision = Decision(window: Window, allowed: bool, remaining: int, resetAt: int)

  const FRESH := Window(0, 0)

  /** A configured length of zero or less means one minute. */
  function Length(configured: int): int {
    if configured <= 0 then 60 else configured
  }

  /** The window a request at time now falls into. */
  function Roll(w: Window, now: int, len: int): Window {
    if w.start == 0 || now - w.start >= len then Window(now, 0) else w
  }

  function Decide(w: Window, now: int, limit: nat, len: int): Decision {
    var r := Roll(w, now, len);
    if r.count >= limit then Decision(r, false, 0, r.start + len)
    else Decision(Window(r.start, r.count + 1), true, limit - r.count - 1, r.start + len)
  }

  /** The window after the requests at the given times. */
  function After(times: seq<int>, limit: nat, len: int): Window {
    if times == [] then FRESH
    else Decide(After(times[..|times| - 1], limit, len), times[|times| - 1], limit, len).window
  }

  predicate Clock(times: seq<int>) {
    (forall i :: 0 <= i < |times| ==> 1 <= times[i]) && forall i, j :: 0 <= i < j < |times| ==> times[i] <= times[j]
  }

  /** Requests allowed at a time in [from, to). */
  function AllowedIn(times: seq<int>, limit: nat, len: int, from: int, to: int): nat {
    if times == [] then 0 else
      var n := |times| - 1;
      var d := Decide(After(times[..n], limit, len), times[n], limit, len);
      AllowedIn(times[..n], limit, len, from, to) + if d.allowed && from <= times[n] < to then 1 else 0
  }

  /** The window counts exactly the requests allowed since it started, and holds every request so far. */
  lemma {:induction false} WindowCounts(times: seq<int>, limit: nat, len: int, horizon: int)
    requires Clock(times) && len > 0 && forall i :: 0 <= i < |times| ==> times[i] < horizon
    ensures var w := After(times, limit, len);
      && w.count <= limit
      && (times == [] <==> w.start == 0)
      && (times != [] ==> 1 <= w.start <= times[|times| - 1] < w.start + len)
      && AllowedIn(times, limit, len, w.start, horizon) == w.count
  {
    if times != [] {
      var n := |times| - 1;
      var before := times[..n];
      assert Clock(before);
      WindowCounts(before, limit, len, horizon);
      var w, t := After(before, limit, len), times[n];
      if Roll(w, t, len) != w {
        assert before != [] ==> before[n - 1] < t;
        NothingFrom(before, limit, len, t, horizon);
      }
    }
  }

  /** No request at all, let alone an allowed one, at or after a time later than all of them. */
  lemma {:induction false} NothingFrom(times: seq<int>, limit: nat, len: int, from: int, to: int)
    requires forall i :: 0 <= i < |times| ==> times[i] < from
    ensures AllowedIn(times, limit, len, from, to) == 0
  {
    if times != [] {
      NothingFrom(times[..|times| - 1], limit, len, from, to);
    }
  }

  /** x taken m times. */
  function Times(m: nat, x: nat): nat {
    if m == 0 then 0 else Times(m - 1, x) + x
  }

  lemma {:induction false} TimesIsProduct(m: nat, x: nat)
    ensures Times(m, x) == m * x
  {
    if m > 0 {
      TimesIsProduct(m - 1, x);
      assert m * x == (m - 1) * x + x;
    }
  }

  /** Going back m window lengths from the current start costs at most m more full windows. */
  lemma {:induction false} BackwardBound(times: seq<int>, limit: nat, len: int, from: int, m: nat, horizon: int)
    requires Clock(times) && len > 0 && limit > 0 && forall i :: 0 <= i < |times| ==> times[i] < horizon
    requires After(times, limit, len).start <= from + Times(m, len)
    ensures AllowedIn(times, limit, len, from, horizon) <= After(times, limit, len).count + Times(m, limit)
  {
    if times != [] {
      var n := |times| - 1;
      var before := times[..n];
      assert Clock(before);
      var w, t := After(before, limit, len), times[n];
      WindowCounts(before, limit, len, horizon);
      if Roll(w, t, len) == w && before != [] {
        BackwardBound(before, limit, len, from, m, horizon);
      } else if m == 0 {
        assert before != [] ==> before[n - 1] < t;
        NothingFrom(before, limit, len, from, horizon);
      } else if before != [] {
        BackwardBound(before, limit, len, from, m - 1, horizon);
      }
    }
  }

  /** Any half-open interval of k window lengths contains at most (k + 1) times the limit of allowed requests. */
  lemma {:induction false} IntervalBound(times: seq<int>, limit: nat, len: int, from: int, k: nat)
    requires Clock(times) && len > 0 && limit > 0
    ensures AllowedIn(times, limit, len, from, from + k * len) <= (k + 1) * limit
  {
    TimesIsProduct(k, len);
    TimesIsProduct(k + 1, limit);
    IntervalCounts(times, limit, len, from, k);
  }

  lemma {:induction false} IntervalCounts(times: seq<int>, limit: nat, len: int, from: int, k: nat)
    requires Clock(times) && len > 0 && limit > 0
    ensures AllowedIn(times, limit, len, from, from + Times(k, len)) <= Times(k + 1, limit)
  {
    var to := from + Times(k, len);
    if times != [] {
      var n := |times| - 1;
      assert Clock(times[..n]);
      if times[n] >= to {
        IntervalCounts(times[..n], limit, len, from, k);
      } else {
        WindowCounts(times, limit, len, to);
        BackwardBound(times, limit, len, from, k, to);
      }
    }
  }

  lemma ClockSplit(times: seq<int>, now: int)
    requires Clock(times + [now])
    ensures Clock(times) && now >= 1 && forall i :: 0 <= i < |times| ==> times[i] <= now
  {
    var all := times + [now];
    assert all[|times|] == now;
    assert forall i :: 0 <= i < |times| ==> times[i] == all[i];
  }

  /** What one more request sees, in terms of the history. */
  lemma NextRequest(times: seq<int>, now: int, limit: nat, len: int)
    requires Clock(times + [now]) && len > 0
    ensures var w := After(times, limit, len);
      && 1 <= Roll(w, now, len).start <= now < Roll(w, now, len).start + len
      && AllowedIn(times, limit, len, Roll(w, now, len).start, now + 1) == Roll(w, now, len).count <= limit
  {
    ClockSplit(times, now);
    WindowCounts(times, limit, len, now + 1);
    var w := After(times, limit, len);
    if Roll(w, now, len) != w {
      assert times != [] ==> times[|times| - 1] < now;
      NothingFrom(times, limit, len, now, now + 1);
    }
  }

  /** A request is denied exactly when the limit was already reached by requests allowed since the
      window it falls into started, and the reported reset is always in the future. */
  lemma DeniedExactly(times: seq<int>, now: int, limit: nat, len: int)
    requires Clock(times + [now]) && len > 0
    ensures var d := Decide(After(times, limit, len), now, limit, len);
      && (!d.allowed <==> AllowedIn(times, limit, len, d.resetAt - len, now + 1) == limit)
      && d.remaining == limit - AllowedIn(times, limit, len, d.resetAt - len, now + 1) - (if d.allowed then 1 else 0)
      && d.resetAt > now
  {
    NextRequest(times, now, limit, len);
  }

  /** The reset reported with any answer is exact: until then the same window stays, and the first
      request at or after it is allowed; after a denial every request before it is denied too. */
  lemma {:induction false} ResetAtIsExact(times: seq<int>, now: int, more: seq<int>, next: int, limit: nat, len: int)
    requires Clock(times + [now]) && len > 0 && limit > 0
    requires forall i :: 0 <= i < |more| ==> more[i] < Decide(After(times, limit, len), now, limit, len).resetAt
    ensures var d := Decide(After(times, limit, len), now, limit, len);
      var w := After(times + [now] + more, limit, len);
      && w.start == d.window.start == d.resetAt - len && w.count >= d.window.count
      && (next >= d.resetAt ==> Decide(w, next, limit, len).allowed)
      && (!d.allowed ==> w == d.window && (Decide(w, next, limit, len).allowed <==> next >= d.resetAt))
  {
    var all := times + [now] + more;
    NextRequest(times, now, limit, len);
    if more == [] {
      assert all[..|times|] == times;
    } else {
      var n := |more| - 1;
      assert all[..|all| - 1] == times + [now] + more[..n];
      ResetAtIsExact(times, now, more[..n], more[n], limit, len);
    }
  }
}
