/** The limiter in the running store: requests move the window of the cached key, and a reload's swap
    installs the window it copied earlier. */
module ApiKeyWindows {
  import opened Options
  import opened RateLimiter
  import opened ApiKeyUsage
  import opened ApiKeyReloads

  /** The window of a key that is not cached starts afresh when it is loaded. */
  function WindowOf(cache: Cache, h: Hash): Window {
    if h in cache then cache[h].window else FRESH
  }

  // ---- a key whose limits stay ----

  predicate Limits(row: KeyRow, limit: nat, len: int) {
    row.rateLimit == limit && Length(row.rateWindowSec) == len
  }

  ghost predicate CacheLimits(cache: Cache, h: Hash, limit: nat, len: int) {
    h in cache ==> Limits(cache[h].key, limit, len)
  }

  ghost predicate RowLimits(rows: Table, x: KeyId, limit: nat, len: int) {
    x in rows ==> Limits(rows[x], limit, len)
  }

  /** Wherever key x or hash h occurs, it has these limits. */
  ghost predicate Limited(s: Store, x: KeyId, h: Hash, limit: nat, len: int) {
    && RowLimits(s.db, x, limit, len) && CacheLimits(s.cache, h, limit, len)
    && (forall r :: r in s.reloads ==>
         RowLimits(s.reloads[r].rows, x, limit, len) && CacheLimits(s.reloads[r].next, h, limit, len))
  }

  /** The action neither rotates nor deletes key x and leaves its limits. */
  ghost predicate Steady(a: Action, x: KeyId, limit: nat, len: int) {
    Spares(a, x) && (a.Change? && a.id == x ==> Limits(a.row, limit, len))
  }

  ghost predicate AllSteady(acts: seq<Action>, x: KeyId, limit: nat, len: int) {
    forall i :: 0 <= i < |acts| ==> Steady(acts[i], x, limit, len)
  }

  lemma StepLimited(s: Store, a: Action, x: KeyId, h: Hash, limit: nat, len: int)
    requires Owns(s, x, h) && Limited(s, x, h, limit, len) && Steady(a, x, limit, len) && Step(s, a).Some?
    ensures Limited(Step(s, a).value, x, h, limit, len)
  {
  }

  lemma {:induction false} RunLimited(s: Store, acts: seq<Action>, x: KeyId, h: Hash, limit: nat, len: int)
    requires Owns(s, x, h) && Limited(s, x, h, limit, len) && AllSteady(acts, x, limit, len) && Exec(s, acts).Some?
    ensures Owns(Exec(s, acts).value, x, h) && Limited(Exec(s, acts).value, x, h, limit, len)
  {
    if acts != [] {
      var n := |acts| - 1;
      RunLimited(s, acts[..n], x, h, limit, len);
      assert Steady(acts[n], x, limit, len);
      StepOwns(Exec(s, acts[..n]).value, acts[n], x, h);
      StepLimited(Exec(s, acts[..n]).value, acts[n], x, h, limit, len);
    }
  }

  // ---- requests ----

  /** The action is a request with hash h that reaches the limiter. */
  ghost predicate Reaches(s: Store, a: Action, h: Hash) {
    a.Auth? && a.hash == h && h in s.cache && s.cache[h].key.enabled
    && !(s.cache[h].key.expiresAt > 0 && a.expNow >= s.cache[h].key.expiresAt)
  }

  /** The times of the requests with hash h that reached the limiter. */
  ghost function RequestTimes(s: Store, acts: seq<Action>, h: Hash): seq<int> {
    if acts == [] then [] else
      var n := |acts| - 1; var before := Exec(s, acts[..n]);
      RequestTimes(s, acts[..n], h) + if before.Some? && Reaches(before.value, acts[n], h) then [acts[n].now] else []
  }

  /** How many requests with hash h were granted at a time in [from, to). */
  ghost function GrantedIn(s: Store, acts: seq<Action>, h: Hash, from: int, to: int): nat {
    if acts == [] then 0 else
      var n := |acts| - 1; var before := Exec(s, acts[..n]);
      GrantedIn(s, acts[..n], h, from, to) +
        if before.Some? && Grants(before.value, acts[n], h) && from <= acts[n].now < to then 1 else 0
  }

  /** A request moves the window as one limiter decision; it is granted when that decision allows it. */
  lemma RequestMoves(s: Store, a: Action, h: Hash, limit: nat, len: int)
    requires CacheLimits(s.cache, h, limit, len) && limit > 0 && Step(s, a).Some? && a.Auth?
    ensures WindowOf(Step(s, a).value.cache, h) ==
      if Reaches(s, a, h) then Decide(WindowOf(s.cache, h), a.now, limit, len).window else WindowOf(s.cache, h)
    ensures Grants(s, a, h) <==> Reaches(s, a, h) && Decide(WindowOf(s.cache, h), a.now, limit, len).allowed
  {
  }

  /** Besides requests, only a swap can change the window of a key. */
  lemma OthersKeepWindow(s: Store, a: Action, h: Hash)
    requires Step(s, a).Some? && !a.Auth? && !a.Swap?
    ensures WindowOf(Step(s, a).value.cache, h) == WindowOf(s.cache, h)
  {
  }

  // ---- swaps ----

  /** Window v began later than w, or counts more requests since the same start. */
  predicate Later(w: Window, v: Window) {
    w.start < v.start || (w.start == v.start && w.count < v.count)
  }

  /** A granted request moves a window on, a denied one leaves it. */
  lemma DecisionMovesOn(w: Window, now: int, limit: nat, len: int)
    requires limit > 0 && len > 0 && now >= 1
    ensures var d := Decide(w, now, limit, len); if d.allowed then Later(w, d.window) else d.window == w
  {
  }

  /** The requests with hash h granted since reload r copied key x. */
  ghost function GrantsSince(s: Store, acts: seq<Action>, r: ReloadId, x: KeyId, h: Hash): nat {
    if acts == [] then 0 else
      var n := |acts| - 1; var a := acts[n]; var before := Exec(s, acts[..n]);
      if a.Copy? && a.reload == r && a.id == x then 0
      else GrantsSince(s, acts[..n], r, x, h) + if before.Some? && Grants(before.value, a, h) then 1 else 0
  }

  /** No swap of the run installs a copy made before a granted request. */
  ghost predicate Quiet(s: Store, acts: seq<Action>, x: KeyId, h: Hash) {
    acts == [] ||
    (var n := |acts| - 1;
     && Quiet(s, acts[..n], x, h)
     && (acts[n].Swap? ==> GrantsSince(s, acts[..n], acts[n].reload, x, h) == 0))
  }

  /** Reload r has yet to copy key x, or its copy has the cached window, or an earlier one if requests
      were granted since. */
  ghost predicate CopyIs(s: Store, r: ReloadId, x: KeyId, h: Hash, grants: nat) {
    r in s.reloads && x !in s.reloads[r].rows ==>
      var copied, cached := WindowOf(s.reloads[r].next, h), WindowOf(s.cache, h);
      if grants == 0 then copied == cached else Later(copied, cached)
  }

  /** Hash h is key x's with these limits and no window yet, here or in any copy made so far. */
  ghost predicate StartsFresh(s: Store, x: KeyId, h: Hash, limit: nat, len: int) {
    && Owns(s, x, h) && Limited(s, x, h, limit, len) && limit > 0 && len > 0
    && WindowOf(s.cache, h) == FRESH && forall r :: CopyIs(s, r, x, h, 0)
  }

  /** A key created with an unused id and hash starts so, whatever else is going on. */
  lemma CreateStartsFresh(s: Store, x: KeyId, row: KeyRow, limit: nat, len: int)
    requires Unused(s, x, row.hash) && Step(s, Create(x, row)).Some? && limit > 0 && Limits(row, limit, len)
    ensures StartsFresh(Step(s, Create(x, row)).value, x, row.hash, limit, len)
  {
  }

  lemma RequestKeepsCopy(s: Store, a: Action, r: ReloadId, x: KeyId, h: Hash, limit: nat, len: int, grants: nat)
    requires Limited(s, x, h, limit, len) && limit > 0 && len > 0 && CopyIs(s, r, x, h, grants)
    requires a.Auth? && (Reaches(s, a, h) ==> a.now >= 1) && Step(s, a).Some?
    ensures CopyIs(Step(s, a).value, r, x, h, grants + if Grants(s, a, h) then 1 else 0)
  {
    RequestMoves(s, a, h, limit, len);
    if Reaches(s, a, h) {
      DecisionMovesOn(WindowOf(s.cache, h), a.now, limit, len);
    }
  }

  lemma OtherStepKeepsCopy(s: Store, a: Action, r: ReloadId, x: KeyId, h: Hash, grants: nat)
    requires Owns(s, x, h) && CopyIs(s, r, x, h, grants) && !a.Auth? && Step(s, a).Some?
    requires a.Swap? ==> CopyIs(s, a.reload, x, h, 0)
    ensures CopyIs(Step(s, a).value, r, x, h, if a.Copy? && a.reload == r && a.id == x then 0 else grants)
  {
  }

  lemma {:induction false} CopiesInRun(s: Store, acts: seq<Action>, r: ReloadId, x: KeyId, h: Hash,
                                       limit: nat, len: int)
    requires StartsFresh(s, x, h, limit, len) && AllSteady(acts, x, limit, len) && Exec(s, acts).Some?
    requires Quiet(s, acts, x, h) && Clock(RequestTimes(s, acts, h))
    ensures CopyIs(Exec(s, acts).value, r, x, h, GrantsSince(s, acts, r, x, h))
  {
    if acts != [] {
      var n := |acts| - 1; var a := acts[n];
      var before := Exec(s, acts[..n]).value;
      ClockBefore(s, acts, h);
      RunLimited(s, acts[..n], x, h, limit, len);
      CopiesInRun(s, acts[..n], r, x, h, limit, len);
      if a.Auth? {
        RequestKeepsCopy(before, a, r, x, h, limit, len, GrantsSince(s, acts[..n], r, x, h));
      } else {
        if a.Swap? {
          CopiesInRun(s, acts[..n], a.reload, x, h, limit, len);
        }
        OtherStepKeepsCopy(before, a, r, x, h, GrantsSince(s, acts[..n], r, x, h));
      }
    }
  }

  lemma ClockBefore(s: Store, acts: seq<Action>, h: Hash)
    requires acts != [] && Exec(s, acts).Some? && Clock(RequestTimes(s, acts, h))
    ensures var n := |acts| - 1;
      && Clock(RequestTimes(s, acts[..n], h))
      && (Reaches(Exec(s, acts[..n]).value, acts[n], h) ==> acts[n].now >= 1)
  {
    var n := |acts| - 1;
    var times := RequestTimes(s, acts[..n], h);
    if Reaches(Exec(s, acts[..n]).value, acts[n], h) {
      ClockSplit(times, acts[n].now);
    } else {
      assert times + [] == times;
    }
  }

  /** After a quiet run, the next swap keeps the window of a key if and only if no request with it was
      granted since that reload copied it; otherwise it puts an earlier window back. */
  lemma SwapKeepsWindowExactly(s: Store, acts: seq<Action>, r: ReloadId, x: KeyId, h: Hash, limit: nat, len: int)
    requires StartsFresh(s, x, h, limit, len) && AllSteady(acts, x, limit, len) && Exec(s, acts).Some?
    requires Quiet(s, acts, x, h) && Clock(RequestTimes(s, acts, h)) && Step(Exec(s, acts).value, Swap(r)).Some?
    ensures var t := Exec(s, acts).value; var u := Step(t, Swap(r)).value;
      && (WindowOf(u.cache, h) == WindowOf(t.cache, h) <==> GrantsSince(s, acts, r, x, h) == 0)
      && (GrantsSince(s, acts, r, x, h) > 0 ==> Later(WindowOf(u.cache, h), WindowOf(t.cache, h)))
  {
    CopiesInRun(s, acts, r, x, h, limit, len);
  }

  // ---- the limiter over a quiet run ----

  lemma AfterOneMore(times: seq<int>, now: int, limit: nat, len: int, from: int, to: int)
    ensures var d := Decide(After(times, limit, len), now, limit, len);
      && After(times + [now], limit, len) == d.window
      && AllowedIn(times + [now], limit, len, from, to)
         == AllowedIn(times, limit, len, from, to) + if d.allowed && from <= now < to then 1 else 0
  {
    assert (times + [now])[..|times|] == times;
  }

  lemma WindowNext(s: Store, a: Action, times: seq<int>, h: Hash, limit: nat, len: int, from: int, to: int)
    requires CacheLimits(s.cache, h, limit, len) && limit > 0 && Step(s, a).Some?
    requires a.Swap? ==> WindowOf(Step(s, a).value.cache, h) == WindowOf(s.cache, h)
    requires WindowOf(s.cache, h) == After(times, limit, len)
    ensures var after := times + if Reaches(s, a, h) then [a.now] else [];
      && WindowOf(Step(s, a).value.cache, h) == After(after, limit, len)
      && AllowedIn(after, limit, len, from, to)
         == AllowedIn(times, limit, len, from, to) + if Grants(s, a, h) && from <= a.now < to then 1 else 0
  {
    if a.Auth? {
      RequestMoves(s, a, h, limit, len);
    } else if !a.Swap? {
      OthersKeepWindow(s, a, h);
    }
    if Reaches(s, a, h) {
      AfterOneMore(times, a.now, limit, len, from, to);
    } else {
      assert times + [] == times;
    }
  }

  /** In a quiet run the cached window and the grants are those of the limiter over the request times. */
  lemma {:induction false} WindowFollows(s: Store, acts: seq<Action>, x: KeyId, h: Hash, limit: nat, len: int,
                                         from: int, to: int)
    requires StartsFresh(s, x, h, limit, len) && AllSteady(acts, x, limit, len) && Exec(s, acts).Some?
    requires Quiet(s, acts, x, h) && Clock(RequestTimes(s, acts, h))
    ensures var times := RequestTimes(s, acts, h);
      && WindowOf(Exec(s, acts).value.cache, h) == After(times, limit, len)
      && GrantedIn(s, acts, h, from, to) == AllowedIn(times, limit, len, from, to)
  {
    if acts != [] {
      var n := |acts| - 1;
      ClockBefore(s, acts, h);
      WindowFollows(s, acts[..n], x, h, limit, len, from, to);
      LastStepQuiet(s, acts, x, h, limit, len);
      WindowNext(Exec(s, acts[..n]).value, acts[n], RequestTimes(s, acts[..n], h), h, limit, len, from, to);
    }
  }

  /** The last step of a quiet run keeps limits, and the window if it is a swap. */
  lemma LastStepQuiet(s: Store, acts: seq<Action>, x: KeyId, h: Hash, limit: nat, len: int)
    requires acts != [] && StartsFresh(s, x, h, limit, len) && AllSteady(acts, x, limit, len) && Exec(s, acts).Some?
    requires Quiet(s, acts, x, h) && Clock(RequestTimes(s, acts, h))
    ensures var n := |acts| - 1; var before := Exec(s, acts[..n]).value;
      && CacheLimits(before.cache, h, limit, len) && Step(before, acts[n]).Some?
      && (acts[n].Swap? ==> WindowOf(Step(before, acts[n]).value.cache, h) == WindowOf(before.cache, h))
  {
    var n := |acts| - 1;
    ClockBefore(s, acts, h);
    RunLimited(s, acts[..n], x, h, limit, len);
    if acts[n].Swap? {
      SwapKeepsWindowExactly(s, acts[..n], acts[n].reload, x, h, limit, len);
    }
  }

  /** Over any quiet run of the store with a clock that does not go back, an interval of k window lengths
      sees at most (k + 1) times the limit of granted requests with the key. */
  lemma StoreIntervalBound(s: Store, acts: seq<Action>, x: KeyId, h: Hash, limit: nat, len: int, from: int, k: nat)
    requires StartsFresh(s, x, h, limit, len) && AllSteady(acts, x, limit, len) && Exec(s, acts).Some?
    requires Quiet(s, acts, x, h) && Clock(RequestTimes(s, acts, h))
    ensures GrantedIn(s, acts, h, from, from + k * len) <= (k + 1) * limit
  {
    WindowFollows(s, acts, x, h, limit, len, from, from + k * len);
    IntervalBound(RequestTimes(s, acts, h), limit, len, from, k);
  }

  // ---- a run that is not quiet ----

  lemma GrantedNext(s: Store, acts: seq<Action>, a: Action, h: Hash, from: int, to: int)
    ensures GrantedIn(s, acts + [a], h, from, to) == GrantedIn(s, acts, h, from, to) +
      if Exec(s, acts).Some? && Grants(Exec(s, acts).value, a, h) && from <= a.now < to then 1 else 0
  {
    assert (acts + [a])[..|acts|] == acts;
  }

  /** The first key's run so far, with this many requests granted in [from, to). */
  ghost predicate GrantingRun(x: KeyId, row: KeyRow, more: seq<Action>, t: Store, from: int, to: int, count: nat) {
    FirstKeyRun(x, row, more, t) && GrantedIn(Init(), CreateAndLoad(x, row) + more, row.hash, from, to) == count
  }

  lemma GrantingNext(x: KeyId, row: KeyRow, more: seq<Action>, s: Store, from: int, to: int, count: nat, a: Action)
    returns (t: Store)
    requires GrantingRun(x, row, more, s, from, to, count) && Step(s, a).Some?
    ensures Step(s, a) == Some(t)
    ensures GrantingRun(x, row, more + [a], t, from, to,
      count + if Grants(s, a, row.hash) && from <= a.now < to then 1 else 0)
  {
    t := Step(s, a).value;
    KeyRunNext(x, row, more, s, a, t);
    GrantedNext(Init(), CreateAndLoad(x, row) + more, a, row.hash, from, to);
    assert CreateAndLoad(x, row) + (more + [a]) == CreateAndLoad(x, row) + more + [a];
  }

  lemma {:induction false} NobodyGranted(s: Store, acts: seq<Action>, h: Hash, from: int, to: int)
    requires forall i :: 0 <= i < |acts| ==> !acts[i].Auth?
    ensures GrantedIn(s, acts, h, from, to) == 0
  {
    if acts != [] {
      NobodyGranted(s, acts[..|acts| - 1], h, from, to);
    }
  }

  /** Two reloads have copied the new key. */
  lemma TwoReloadsCopied(x: KeyId, row: KeyRow, from: int, to: int) returns (t: Store)
    requires IsNew(row)
    ensures GrantingRun(x, row, Copying(1, x) + Copying(2, x), t, from, to, 0)
    ensures var copy := Reload(map[], Loaded(x, row).cache);
      t == Loaded(x, row).(reloads := map[1 := copy, 2 := copy])
  {
    KeyLoaded(x, row);
    var a := KeyRunCopies(x, row, [], Loaded(x, row), 1);
    assert [] + Copying(1, x) == Copying(1, x);
    t := KeyRunCopies(x, row, Copying(1, x), a, 2);
    NobodyGranted(Init(), CreateAndLoad(x, row) + (Copying(1, x) + Copying(2, x)), row.hash, from, to);
  }

  /** A request, then the swap of reload r. */
  function Burst(h: Hash, now: int, r: ReloadId): seq<Action> {
    [Auth(h, now, now)] + [Swap(r)]
  }

  /** The request is granted, then the reload puts back the state it copied before. */
  lemma GrantAndSwap(x: KeyId, row: KeyRow, more: seq<Action>, s: Store, from: int, to: int, count: nat,
                     r: ReloadId, now: int) returns (t: Store)
    requires GrantingRun(x, row, more, s, from, to, count) && from <= now < to
    requires IsNew(row) && row.rateLimit == 1 && s.cache == Loaded(x, row).cache
    requires r in s.reloads && s.reloads[r] == Reload(map[], Loaded(x, row).cache)
    ensures GrantingRun(x, row, more + Burst(row.hash, now, r), t, from, to, count + 1)
    ensures t.cache == s.cache && t.reloads == s.reloads - {r}
  {
    var a := GrantingNext(x, row, more, s, from, to, count, Auth(row.hash, now, now));
    t := GrantingNext(x, row, more + [Auth(row.hash, now, now)], a, from, to, count + 1, Swap(r));
    assert more + Burst(row.hash, now, r) == more + [Auth(row.hash, now, now)] + [Swap(r)];
  }

  /** With a limit of one, two reloads under way let three requests through in one window length, where
      the bound for an interval of that length is two. */
  lemma ReloadsBreakTheBound(x: KeyId, row: KeyRow, now: int) returns (t: Store)
    requires IsNew(row) && row.rateLimit == 1 && now >= 1
    ensures GrantingRun(x, row, BreakingRun(x, row.hash, now), t, now, now + 1 * Length(row.rateWindowSec), 3)
  {
    var to := now + Length(row.rateWindowSec);
    var a := TwoReloadsCopied(x, row, now, to);
    t := ThreeGrants(x, row, Copying(1, x) + Copying(2, x), a, now, to);
  }

  lemma ThreeGrants(x: KeyId, row: KeyRow, copied: seq<Action>, s: Store, now: int, to: int) returns (t: Store)
    requires GrantingRun(x, row, copied, s, now, to, 0) && now < to
    requires IsNew(row) && row.rateLimit == 1 && s.cache == Loaded(x, row).cache
    requires var copy := Reload(map[], Loaded(x, row).cache); s.reloads == map[1 := copy, 2 := copy]
    ensures GrantingRun(x, row, copied + Burst(row.hash, now, 1) + Burst(row.hash, now, 2) + [Auth(row.hash, now, now)],
                        t, now, to, 3)
  {
    var b := GrantAndSwap(x, row, copied, s, now, to, 0, 1, now);
    var c := GrantAndSwap(x, row, copied + Burst(row.hash, now, 1), b, now, to, 1, 2, now);
    t := GrantOnce(x, row, copied + Burst(row.hash, now, 1) + Burst(row.hash, now, 2), c, now, to, 2, now);
  }

  lemma GrantOnce(x: KeyId, row: KeyRow, more: seq<Action>, s: Store, from: int, to: int, count: nat, now: int)
    returns (t: Store)
    requires GrantingRun(x, row, more, s, from, to, count) && from <= now < to
    requires IsNew(row) && row.rateLimit == 1 && s.cache == Loaded(x, row).cache
    ensures GrantingRun(x, row, more + [Auth(row.hash, now, now)], t, from, to, count + 1)
  {
    t := GrantingNext(x, row, more, s, from, to, count, Auth(row.hash, now, now));
  }

  function BreakingRun(x: KeyId, h: Hash, now: int): seq<Action> {
    Copying(1, x) + Copying(2, x) + Burst(h, now, 1) + Burst(h, now, 2) + [Auth(h, now, now)]
  }
}
