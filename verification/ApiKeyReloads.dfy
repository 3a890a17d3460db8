/** What reloads and failed writes do to the usage accounts: a reload looks a key up under the lock, copies
    its state, which is taken here as one step, and installs the copy in a later locked section. */
module ApiKeyReloads {
  import opened Options
  import opened RateLimiter
  import opened ApiKeyUsage

  /** A request with hash h is granted. */
  ghost predicate Grants(s: Store, a: Action, h: Hash) {
    a.Auth? && a.hash == h && h in s.cache && Admit(s.cache[h], a.expNow, a.now).1.Granted?
  }

  /** What one action adds to the unflushed usage of h in the cache, swaps aside. */
  ghost function Traffic(s: Store, a: Action, h: Hash): int {
    if Grants(s, a, h) then 1 else if a.Collect? then -(Delta(s.cache, h) as int) else 0
  }

  /** How far the cache has moved away from what reload r holds of key x since r copied it: granted
      requests less collected ones, and other reloads' swaps by their own distance. */
  ghost function Net(s: Store, acts: seq<Action>, r: ReloadId, x: KeyId, h: Hash): int {
    if acts == [] then 0 else
      var n := |acts| - 1; var a := acts[n]; var before := Exec(s, acts[..n]);
      if a.Copy? && a.reload == r && a.id == x then 0
      else if a.Swap? && a.reload != r then Net(s, acts[..n], r, x, h) - Net(s, acts[..n], a.reload, x, h)
      else Net(s, acts[..n], r, x, h) + if before.Some? then Traffic(before.value, a, h) else 0
  }

  /** Reload r has yet to copy key x, or the cache is ahead of its copy by net. */
  ghost predicate AheadBy(s: Store, r: ReloadId, x: KeyId, h: Hash, net: int) {
    r in s.reloads && x !in s.reloads[r].rows ==> Delta(s.cache, h) == Delta(s.reloads[r].next, h) + net
  }

  /** Hash h is key x's, and every reload under way has yet to copy it or is level with the cache. */
  ghost predicate Starts(s: Store, x: KeyId, h: Hash) {
    Owns(s, x, h) && forall r :: AheadBy(s, r, x, h, 0)
  }

  /** A key created with an unused id and hash starts so without a gap, whatever else is going on. */
  lemma CreateStarts(s: Store, x: KeyId, row: KeyRow)
    requires Unused(s, x, row.hash) && Step(s, Create(x, row)).Some?
    ensures var t := Step(s, Create(x, row)).value; Starts(t, x, row.hash) && Gap(t, x, row.hash) == 0
  {
  }

  lemma CacheStepAhead(s: Store, a: Action, r: ReloadId, x: KeyId, h: Hash, net: int)
    requires Owns(s, x, h) && AheadBy(s, r, x, h, net) && Step(s, a).Some?
    requires !a.Begin? && !a.Copy? && !a.Swap?
    ensures AheadBy(Step(s, a).value, r, x, h, net + Traffic(s, a, h))
  {
  }

  lemma ReloadStepAhead(s: Store, a: Action, r: ReloadId, x: KeyId, h: Hash, net: int, other: int)
    requires Owns(s, x, h) && AheadBy(s, r, x, h, net) && Step(s, a).Some? && (a.Begin? || a.Copy? || a.Swap?)
    requires a.Swap? ==> AheadBy(s, a.reload, x, h, other)
    ensures AheadBy(Step(s, a).value, r, x, h,
      if a.Copy? && a.reload == r && a.id == x then 0 else if a.Swap? && a.reload != r then net - other else net)
  {
  }

  /** The net traffic is the distance, in every run. */
  lemma {:induction false} NetIsDistance(s: Store, acts: seq<Action>, r: ReloadId, x: KeyId, h: Hash)
    requires Starts(s, x, h) && Exec(s, acts).Some? && AllSpare(acts, x)
    ensures AheadBy(Exec(s, acts).value, r, x, h, Net(s, acts, r, x, h))
  {
    if acts != [] {
      var n := |acts| - 1; var a := acts[n];
      var before := Exec(s, acts[..n]).value;
      RunOwns(s, acts[..n], x, h);
      NetIsDistance(s, acts[..n], r, x, h);
      if a.Begin? || a.Copy? || a.Swap? {
        if a.Swap? {
          NetIsDistance(s, acts[..n], a.reload, x, h);
        }
        ReloadStepAhead(before, a, r, x, h, Net(s, acts[..n], r, x, h),
                        if a.Swap? then Net(s, acts[..n], a.reload, x, h) else 0);
      } else {
        CacheStepAhead(before, a, r, x, h, Net(s, acts[..n], r, x, h));
      }
    }
  }

  /** After any run, a reload's swap shifts the accounts of a key by exactly the net traffic since it
      copied the key: they stay as they were if and only if as much was collected as was granted. */
  lemma SwapExactly(s: Store, acts: seq<Action>, r: ReloadId, x: KeyId, h: Hash)
    requires Starts(s, x, h) && AllSpare(acts, x) && Exec(s, acts).Some?
    requires Step(Exec(s, acts).value, Swap(r)).Some?
    ensures var t := Exec(s, acts).value; var u := Step(t, Swap(r)).value;
      && Owns(t, x, h) && Owns(u, x, h)
      && Gap(u, x, h) == Gap(t, x, h) - Net(s, acts, r, x, h)
      && (Gap(u, x, h) == Gap(t, x, h) <==> Net(s, acts, r, x, h) == 0)
  {
    RunOwns(s, acts, x, h);
    NetIsDistance(s, acts, r, x, h);
    StepOwns(Exec(s, acts).value, Swap(r), x, h);
    StepGap(Exec(s, acts).value, Swap(r), x, h);
  }

  // ---- one reload by itself ----

  /** The requests granted with hash h. */
  ghost function Granted(s: Store, acts: seq<Action>, h: Hash): nat {
    if acts == [] then 0 else
      var n := |acts| - 1; var before := Exec(s, acts[..n]);
      Granted(s, acts[..n], h) + if before.Some? && Grants(before.value, acts[n], h) then 1 else 0
  }

  /** The usage of hash h that flushes collected. */
  ghost function CollectedIn(s: Store, acts: seq<Action>, h: Hash): nat {
    if acts == [] then 0 else
      var n := |acts| - 1; var before := Exec(s, acts[..n]);
      CollectedIn(s, acts[..n], h) + if before.Some? && acts[n].Collect? then Delta(before.value.cache, h) else 0
  }

  /** The action neither swaps the cache nor copies key x into reload r. */
  predicate Leaves(a: Action, r: ReloadId, x: KeyId) {
    !a.Swap? && !(a.Copy? && a.reload == r && a.id == x)
  }

  lemma NetOneMore(s: Store, acts: seq<Action>, a: Action, r: ReloadId, x: KeyId, h: Hash)
    requires Leaves(a, r, x)
    ensures Net(s, acts + [a], r, x, h) ==
      Net(s, acts, r, x, h) + if Exec(s, acts).Some? then Traffic(Exec(s, acts).value, a, h) else 0
  {
    assert (acts + [a])[..|acts|] == acts;
  }

  lemma TrafficOneMore(s: Store, acts: seq<Action>, a: Action, h: Hash)
    ensures Granted(s, acts + [a], h) - CollectedIn(s, acts + [a], h) ==
      Granted(s, acts, h) - CollectedIn(s, acts, h) +
        if Exec(s, acts).Some? then Traffic(Exec(s, acts).value, a, h) else 0
  {
    assert (acts + [a])[..|acts|] == acts;
  }

  lemma NetAfterCopy(s: Store, acts: seq<Action>, r: ReloadId, x: KeyId, h: Hash)
    ensures Net(s, acts + [Copy(r, x)], r, x, h) == 0
  {
  }

  /** When no other reload swaps in between, the net traffic is what was granted less what was collected
      between the reload's copy and its swap. */
  lemma {:induction false} NetOfOneReload(s: Store, first: seq<Action>, between: seq<Action>,
                                          r: ReloadId, x: KeyId, h: Hash)
    requires forall i :: 0 <= i < |between| ==> Leaves(between[i], r, x)
    requires Exec(s, first + [Copy(r, x)]).Some?
    ensures var c := Exec(s, first + [Copy(r, x)]).value;
      Net(s, first + [Copy(r, x)] + between, r, x, h) == Granted(c, between, h) - CollectedIn(c, between, h)
  {
    var start := first + [Copy(r, x)];
    var c := Exec(s, start).value;
    if between == [] {
      assert start + between == start;
      NetAfterCopy(s, first, r, x, h);
    } else {
      var n := |between| - 1;
      NetOfOneReload(s, first, between[..n], r, x, h);
      ExecConcat(s, start, between[..n]);
      NetOneMore(s, start + between[..n], between[n], r, x, h);
      TrafficOneMore(c, between[..n], between[n], h);
      assert between == between[..n] + [between[n]];
      assert start + between == start + between[..n] + [between[n]];
    }
  }

  /** A reload by itself keeps the accounts of a key if and only if, between copying the key and swapping,
      as much of its usage was collected as was granted: in particular when it was left alone. */
  lemma OneReloadExactly(s: Store, first: seq<Action>, between: seq<Action>, r: ReloadId, x: KeyId, h: Hash)
    requires Starts(s, x, h) && AllSpare(first + [Copy(r, x)] + between, x)
    requires forall i :: 0 <= i < |between| ==> Leaves(between[i], r, x)
    requires Exec(s, first + [Copy(r, x)]).Some? && Exec(s, first + [Copy(r, x)] + between).Some?
    requires Step(Exec(s, first + [Copy(r, x)] + between).value, Swap(r)).Some?
    ensures var c := Exec(s, first + [Copy(r, x)]).value;
      var t := Exec(s, first + [Copy(r, x)] + between).value; var u := Step(t, Swap(r)).value;
      && Owns(t, x, h) && Owns(u, x, h)
      && Gap(u, x, h) == Gap(t, x, h) + CollectedIn(c, between, h) - Granted(c, between, h)
  {
    NetOfOneReload(s, first, between, r, x, h);
    SwapExactly(s, first + [Copy(r, x)] + between, r, x, h);
  }

  // ---- the whole account ----

  /** What swaps and failed writes have shifted. */
  ghost function Shift(s: Store, acts: seq<Action>, x: KeyId, h: Hash): int {
    if acts == [] then 0 else
      var n := |acts| - 1; var a := acts[n]; var before := Exec(s, acts[..n]);
      Shift(s, acts[..n], x, h) +
        if a.Swap? then -Net(s, acts[..n], a.reload, x, h)
        else if a.Write? && a.hash == h && !a.ok && before.Some? then -(InFlight(before.value.writing, h) as int)
        else 0
  }

  /** Over any interleaving of requests, two-phase flush, reloads and changes of keys: stored, in flight
      and unflushed usage differ from the granted requests by the net traffic of the swaps and by the
      entries whose write failed, and by nothing else. */
  lemma {:induction false} UsageBalances(s: Store, acts: seq<Action>, x: KeyId, h: Hash)
    requires Starts(s, x, h) && Exec(s, acts).Some? && AllSpare(acts, x)
    ensures Owns(Exec(s, acts).value, x, h)
    ensures Gap(Exec(s, acts).value, x, h) == Gap(s, x, h) + Shift(s, acts, x, h)
  {
    if acts != [] {
      var n := |acts| - 1;
      UsageBalances(s, acts[..n], x, h);
      if acts[n].Swap? {
        SwapExactly(s, acts[..n], acts[n].reload, x, h);
      } else {
        StepOwns(Exec(s, acts[..n]).value, acts[n], x, h);
        StepGap(Exec(s, acts[..n]).value, acts[n], x, h);
      }
    }
  }

  /** Every swap comes after as much was collected as was granted since its copy, and writes succeed. */
  ghost predicate Undisturbed(s: Store, acts: seq<Action>, x: KeyId, h: Hash) {
    acts == [] ||
    (var n := |acts| - 1; var a := acts[n];
     && Undisturbed(s, acts[..n], x, h)
     && (a.Swap? ==> Net(s, acts[..n], a.reload, x, h) == 0)
     && (a.Write? && a.hash == h ==> a.ok))
  }

  lemma {:induction false} UndisturbedShiftsNothing(s: Store, acts: seq<Action>, x: KeyId, h: Hash)
    requires Undisturbed(s, acts, x, h)
    ensures Shift(s, acts, x, h) == 0
  {
    if acts != [] {
      UndisturbedShiftsNothing(s, acts[..|acts| - 1], x, h);
    }
  }

  /** Then no granted request is ever lost or counted twice. */
  lemma UsageConserved(s: Store, acts: seq<Action>, x: KeyId, h: Hash)
    requires Starts(s, x, h) && Gap(s, x, h) == 0 && Exec(s, acts).Some? && AllSpare(acts, x)
    requires Undisturbed(s, acts, x, h)
    ensures var t := Exec(s, acts).value;
      && x in t.db && x in t.granted
      && t.db[x].requestCount + InFlight(t.writing, h) + Delta(t.cache, h) == t.granted[x]
  {
    UsageBalances(s, acts, x, h);
    UndisturbedShiftsNothing(s, acts, x, h);
  }

  /** Nothing touches any key's usage in the cache. */
  predicate Still(a: Action) {
    !a.Auth? && !a.Collect? && !a.Swap?
  }

  /** The action at i comes after reload r's copy of key x, with nothing in between that touches usage. */
  ghost predicate CopiedJustBefore(acts: seq<Action>, i: nat, r: ReloadId, x: KeyId)
    requires i <= |acts|
  {
    exists j :: 0 <= j < i && acts[j] == Copy(r, x) && forall k :: j < k < i ==> Still(acts[k])
  }

  /** Every reload copies key x and swaps as if in one step. */
  ghost predicate AtOnce(acts: seq<Action>, x: KeyId) {
    forall i :: 0 <= i < |acts| && acts[i].Swap? ==> CopiedJustBefore(acts, i, acts[i].reload, x)
  }

  predicate WritesSucceed(acts: seq<Action>, h: Hash) {
    forall i :: 0 <= i < |acts| && acts[i].Write? && acts[i].hash == h ==> acts[i].ok
  }

  lemma {:induction false} StillSinceCopy(s: Store, acts: seq<Action>, j: nat, r: ReloadId, x: KeyId, h: Hash)
    requires j < |acts| && acts[j] == Copy(r, x) && forall k :: j < k < |acts| ==> Still(acts[k])
    ensures Net(s, acts, r, x, h) == 0
  {
    if j < |acts| - 1 {
      StillSinceCopy(s, acts[..|acts| - 1], j, r, x, h);
    }
  }

  lemma {:induction false} AtOnceUndisturbed(s: Store, acts: seq<Action>, x: KeyId, h: Hash)
    requires AtOnce(acts, x) && WritesSucceed(acts, h)
    ensures Undisturbed(s, acts, x, h)
  {
    if acts != [] {
      var n := |acts| - 1;
      forall i | 0 <= i < n && acts[..n][i].Swap? ensures CopiedJustBefore(acts[..n], i, acts[..n][i].reload, x) {
        var j :| 0 <= j < i && acts[j] == Copy(acts[i].reload, x) && forall k :: j < k < i ==> Still(acts[k]);
        assert acts[..n][j] == Copy(acts[i].reload, x);
      }
      AtOnceUndisturbed(s, acts[..n], x, h);
      if acts[n].Swap? {
        var j :| 0 <= j < n && acts[j] == Copy(acts[n].reload, x) && forall k :: j < k < n ==> Still(acts[k]);
        StillSinceCopy(s, acts[..n], j, acts[n].reload, x, h);
      }
    }
  }

  /** While reloads copy and swap as if in one step and writes succeed, whatever else interleaves, every
      granted request is counted exactly once. */
  lemma AtomicReloadsConserve(s: Store, acts: seq<Action>, x: KeyId, h: Hash)
    requires Starts(s, x, h) && Gap(s, x, h) == 0 && Exec(s, acts).Some? && AllSpare(acts, x)
    requires AtOnce(acts, x) && WritesSucceed(acts, h)
    ensures var t := Exec(s, acts).value;
      && x in t.db && x in t.granted
      && t.db[x].requestCount + InFlight(t.writing, h) + Delta(t.cache, h) == t.granted[x]
  {
    AtOnceUndisturbed(s, acts, x, h);
    UsageConserved(s, acts, x, h);
  }

  // ---- both ways to fail, from an empty installation ----

  /** A valid key that has not been used. */
  predicate IsNew(row: KeyRow) {
    row.enabled && row.expiresAt == 0 && row.lastUsedAt == 0 && row.requestCount == 0
  }

  /** The key x in table and cache. */
  function Loaded(x: KeyId, row: KeyRow): Store {
    Store(map[x := row], map[row.hash := KeyState(x, row, FRESH, 0, 0)], map[], map[], map[x := 0])
  }

  /** Reload r, from its query to the copy of the only key. */
  function Copying(r: ReloadId, x: KeyId): seq<Action> {
    [Begin(r), Copy(r, x)]
  }

  function CreateAndLoad(x: KeyId, row: KeyRow): seq<Action> {
    [Create(x, row)] + Copying(0, x) + [Swap(0)]
  }

  /** On an empty installation, key x is created and loaded, and then `more` happens. */
  ghost predicate FirstKeyRun(x: KeyId, row: KeyRow, more: seq<Action>, t: Store) {
    Exec(Init(), CreateAndLoad(x, row) + more) == Some(t)
  }

  lemma Copied(i: Store, acts: seq<Action>, s: Store, r: ReloadId, x: KeyId) returns (t: Store)
    requires Exec(i, acts) == Some(s) && s.db.Keys == {x} && r !in s.reloads
    ensures t == s.(reloads := s.reloads[r := Reload(map[], map[s.db[x].hash := Reloaded(x, s.db[x], s.cache)])])
    ensures Exec(i, acts + Copying(r, x)) == Some(t)
  {
    var a := Step(s, Begin(r)).value;
    t := Step(a, Copy(r, x)).value;
    assert s.db - {x} == map[];
    ExecNext(i, acts, s, Begin(r));
    ExecNext(i, acts + [Begin(r)], a, Copy(r, x));
    assert acts + Copying(r, x) == acts + [Begin(r)] + [Copy(r, x)];
  }

  lemma KeyLoaded(x: KeyId, row: KeyRow)
    requires IsNew(row)
    ensures FirstKeyRun(x, row, [], Loaded(x, row))
  {
    var a := Step(Init(), Create(x, row)).value;
    ExecNext(Init(), [], Init(), Create(x, row));
    var b := Copied(Init(), [] + [Create(x, row)], a, 0, x);
    ExecNext(Init(), [] + [Create(x, row)] + Copying(0, x), b, Swap(0));
    assert CreateAndLoad(x, row) + [] == [] + [Create(x, row)] + Copying(0, x) + [Swap(0)];
  }

  lemma KeyRunNext(x: KeyId, row: KeyRow, more: seq<Action>, s: Store, a: Action, t: Store)
    requires FirstKeyRun(x, row, more, s) && Step(s, a) == Some(t)
    ensures FirstKeyRun(x, row, more + [a], t)
  {
    ExecNext(Init(), CreateAndLoad(x, row) + more, s, a);
    assert CreateAndLoad(x, row) + (more + [a]) == CreateAndLoad(x, row) + more + [a];
  }

  lemma KeyRunCopies(x: KeyId, row: KeyRow, more: seq<Action>, s: Store, r: ReloadId) returns (t: Store)
    requires FirstKeyRun(x, row, more, s) && s.db.Keys == {x} && r !in s.reloads
    ensures FirstKeyRun(x, row, more + Copying(r, x), t)
    ensures t == s.(reloads := s.reloads[r := Reload(map[], map[s.db[x].hash := Reloaded(x, s.db[x], s.cache)])])
  {
    t := Copied(Init(), CreateAndLoad(x, row) + more, s, r, x);
    assert CreateAndLoad(x, row) + (more + Copying(r, x)) == CreateAndLoad(x, row) + more + Copying(r, x);
  }

  /** The account of the key: so many requests were granted, and usage differs from them by the gap. */
  ghost predicate Stands(t: Store, x: KeyId, h: Hash, granted: nat, gap: int) {
    x in t.db && x in t.granted && t.granted[x] == granted && Gap(t, x, h) == gap
  }

  /** A request granted between a reload's copy and its swap is lost: one was granted, none is counted. */
  lemma GrantDuringReloadIsLost(x: KeyId, row: KeyRow, now: int) returns (t: Store)
    requires IsNew(row)
    ensures FirstKeyRun(x, row, Copying(1, x) + [Auth(row.hash, now, now)] + [Swap(1)], t)
    ensures Stands(t, x, row.hash, 1, -1)
  {
    KeyLoaded(x, row);
    var a := KeyRunCopies(x, row, [], Loaded(x, row), 1);
    assert [] + Copying(1, x) == Copying(1, x);
    var b := Step(a, Auth(row.hash, now, now)).value;
    t := Step(b, Swap(1)).value;
    KeyRunNext(x, row, Copying(1, x), a, Auth(row.hash, now, now), b);
    KeyRunNext(x, row, Copying(1, x) + [Auth(row.hash, now, now)], b, Swap(1), t);
  }

  /** One request is granted, then reload 1 copies the key. */
  lemma GrantedThenCopied(x: KeyId, row: KeyRow, now: int) returns (t: Store)
    requires IsNew(row)
    ensures FirstKeyRun(x, row, [Auth(row.hash, now, now)] + Copying(1, x), t)
    ensures Stands(t, x, row.hash, 1, 0) && t.db[x].requestCount == 0 && t.writing == map[] && row.hash in t.cache
    ensures t.cache[row.hash].id == x && 1 in t.reloads && t.reloads[1].rows == map[]
    ensures Delta(t.cache, row.hash) == 1 && Delta(t.reloads[1].next, row.hash) == 1
  {
    KeyLoaded(x, row);
    var a := Step(Loaded(x, row), Auth(row.hash, now, now)).value;
    KeyRunNext(x, row, [], Loaded(x, row), Auth(row.hash, now, now), a);
    assert [] + [Auth(row.hash, now, now)] == [Auth(row.hash, now, now)];
    t := KeyRunCopies(x, row, [Auth(row.hash, now, now)], a, 1);
  }

  /** A flush between a reload's copy and its swap counts twice: one was granted, two are counted. */
  lemma FlushDuringReloadCountsTwice(x: KeyId, row: KeyRow, now: int) returns (t: Store)
    requires IsNew(row)
    ensures var flush := [Collect] + [Write(row.hash, true)];
      FirstKeyRun(x, row, [Auth(row.hash, now, now)] + Copying(1, x) + flush + [Swap(1)], t)
    ensures Stands(t, x, row.hash, 1, 1)
  {
    var h := row.hash;
    var more := [Auth(h, now, now)] + Copying(1, x);
    var b := GrantedThenCopied(x, row, now);
    var c := Step(b, Collect).value;
    KeyRunNext(x, row, more, b, Collect, c);
    var d := Step(c, Write(h, true)).value;
    KeyRunNext(x, row, more + [Collect], c, Write(h, true), d);
    t := Step(d, Swap(1)).value;
    assert more + ([Collect] + [Write(h, true)]) == more + [Collect] + [Write(h, true)];
    KeyRunNext(x, row, more + [Collect] + [Write(h, true)], d, Swap(1), t);
  }
}
