/** Usage accounting of API keys: requests counted in memory move through the flusher's list into
    the key table, while reloads copy key states and swap the cache. Every locked section and
    every SQL statement is one step. */
module ApiKeyUsage {
  import opened Options
  import opened RateLimiter

  type KeyId = string
  type Hash = string
  type ReloadId = nat

  /** A row of gw_api_keys, as far as authentication and accounting use it. */
  datatype KeyRow = KeyRow(
    hash: Hash, rateLimit: int, rateWindowSec: int, enabled: bool, expiresAt: int, lastUsedAt: int, requestCount: int)

  /** A cached key: its row as loaded, the limiter window, and usage not yet flushed. */
  datatype KeyState = KeyState(id: KeyId, key: KeyRow, window: Window, usageDelta: nat, lastUsed: int)

  datatype RateResult = RateResult(limit: int, remaining: int, resetAt: int, allowed: bool)

  datatype AuthResult =
    | KeyInvalid
    | KeyDisabled
    | KeyExpired
    | RateLimited(rate: RateResult)
    | Granted(key: KeyRow, rate: RateResult)

  datatype Update = Update(id: KeyId, delta: nat, lastUsed: int)

  type Cache = map<Hash, KeyState>
  type Table = map<KeyId, KeyRow>

  /** The locked section of Authenticate for a cached key; expNow is the instant of the expiry check. */
  function Admit(st: KeyState, expNow: int, now: int): (KeyState, AuthResult) {
    if !st.key.enabled then (st, KeyDisabled)
    else if st.key.expiresAt > 0 && expNow >= st.key.expiresAt then (st, KeyExpired)
    else if st.key.rateLimit <= 0 then
      (st.(usageDelta := st.usageDelta + 1, lastUsed := now), Granted(st.key, RateResult(st.key.rateLimit, 0, 0, true)))
    else
      var d := Decide(st.window, now, st.key.rateLimit, Length(st.key.rateWindowSec));
      var rate := RateResult(st.key.rateLimit, d.remaining, d.resetAt, d.allowed);
      if !d.allowed then (st.(window := d.window), RateLimited(rate))
      else (st.(window := d.window, usageDelta := st.usageDelta + 1, lastUsed := now), Granted(st.key, rate))
  }

  /** What the flusher's locked section does to one key. */
  function Collected(st: KeyState): KeyState {
    if st.usageDelta == 0 then st else
      st.(usageDelta := 0,
          key := st.key.(requestCount := st.key.requestCount + st.usageDelta,
                         lastUsedAt := if st.lastUsed > st.key.lastUsedAt then st.lastUsed else st.key.lastUsedAt))
  }

  /** UPDATE request_count = request_count + delta, last_used_at = lastUsed WHERE id. */
  function AddUsage(db: Table, u: Update): Table {
    if u.id in db then
      db[u.id := db[u.id].(requestCount := db[u.id].requestCount + u.delta, lastUsedAt := u.lastUsed)]
    else db
  }

  /** A reloaded key: the row as read, with window and unflushed usage of the state cached under the same hash. */
  function Reloaded(id: KeyId, row: KeyRow, cache: Cache): KeyState {
    if row.hash in cache then
      var prev := cache[row.hash];
      KeyState(id, row, prev.window, prev.usageDelta, prev.lastUsed)
    else KeyState(id, row, FRESH, 0, 0)
  }

  /** A reload under way: rows read but not yet copied, and the cache being built. */
  datatype Reload = Reload(rows: Table, next: Cache)

  datatype Store = Store(
    db: Table, cache: Cache, writing: map<Hash, Update>, reloads: map<ReloadId, Reload>,
    granted: map<KeyId, nat>)

  /** The store of an empty installation. */
  function Init(): Store {
    Store(map[], map[], map[], map[], map[])
  }

  datatype Action =
    | Auth(hash: Hash, expNow: int, now: int)
    | Collect
    | Write(hash: Hash, ok: bool)
    | Begin(reload: ReloadId)
    | Copy(reload: ReloadId, id: KeyId)
    | Swap(reload: ReloadId)
    | Create(id: KeyId, row: KeyRow)
    | Change(id: KeyId, row: KeyRow)
    | Rotate(id: KeyId, hash: Hash)
    | Delete(id: KeyId)

  function Delta(cache: Cache, hash: Hash): nat {
    if hash in cache then cache[hash].usageDelta else 0
  }

  function InFlight(writing: map<Hash, Update>, hash: Hash): nat {
    if hash in writing then writing[hash].delta else 0
  }

  ghost function Step(s: Store, a: Action): Option<Store> {
    match a
    case Auth(hash, expNow, now) =>
      if hash !in s.cache then Some(s) else
        var (st, result) := Admit(s.cache[hash], expNow, now);
        var id := st.id;
        Some(s.(cache := s.cache[hash := st],
                granted := if result.Granted? && id in s.granted then s.granted[id := s.granted[id] + 1]
                           else s.granted))
    case Collect =>
      if s.writing != map[] then None else
        Some(s.(cache := map h | h in s.cache :: Collected(s.cache[h]),
                writing := map h | h in s.cache && s.cache[h].usageDelta > 0 ::
                  Update(s.cache[h].id, s.cache[h].usageDelta, s.cache[h].lastUsed)))
    case Write(hash, ok) =>
      // a failed UPDATE is logged, and its entry is gone
      if hash !in s.writing then None else
        Some(s.(db := if ok then AddUsage(s.db, s.writing[hash]) else s.db, writing := s.writing - {hash}))
    case Begin(r) =>
      if r in s.reloads then None else Some(s.(reloads := s.reloads[r := Reload(s.db, map[])]))
    case Copy(r, id) =>
      if r !in s.reloads || id !in s.reloads[r].rows then None else
        var row := s.reloads[r].rows[id];
        Some(s.(reloads := s.reloads[r := Reload(
          s.reloads[r].rows - {id}, s.reloads[r].next[row.hash := Reloaded(id, row, s.cache)])]))
    case Swap(r) =>
      if r !in s.reloads || s.reloads[r].rows != map[] then None else
        Some(s.(cache := s.reloads[r].next, reloads := s.reloads - {r}))
    case Create(id, row) =>
      if id in s.db || id in s.granted || (exists j :: j in s.db && s.db[j].hash == row.hash) then None else
        Some(s.(db := s.db[id := row.(requestCount := 0, lastUsedAt := 0)],
                granted := s.granted[id := 0]))
    case Change(id, row) =>
      if id !in s.db then None else
        var prev := s.db[id];
        Some(s.(db := s.db[id := row.(
          hash := prev.hash, requestCount := prev.requestCount, lastUsedAt := prev.lastUsedAt)]))
    case Rotate(id, hash) =>
      if id !in s.db || (exists j :: j in s.db && s.db[j].hash == hash) then None else
        Some(s.(db := s.db[id := s.db[id].(hash := hash)]))
    case Delete(id) =>
      if id !in s.db then None else Some(s.(db := s.db - {id}))
  }

  ghost function Exec(s: Store, acts: seq<Action>): Option<Store> {
    if acts == [] then Some(s) else
      var before := Exec(s, acts[..|acts| - 1]);
      if before.None? then None else Step(before.value, acts[|acts| - 1])
  }

  // ---- one key that is neither rotated nor deleted ----

  /** Hash h belongs to key x wherever it appears. */
  ghost predicate OwnsCache(cache: Cache, x: KeyId, h: Hash) {
    forall k :: k in cache ==> (k == h <==> cache[k].id == x)
  }

  ghost predicate OwnsRows(rows: Table, x: KeyId, h: Hash) {
    forall id :: id in rows ==> (id == x <==> rows[id].hash == h)
  }

  ghost predicate Owns(s: Store, x: KeyId, h: Hash) {
    && x in s.db && x in s.granted
    && OwnsRows(s.db, x, h) && OwnsCache(s.cache, x, h)
    && (forall k :: k in s.writing ==> (k == h <==> s.writing[k].id == x))
    && (forall r :: r in s.reloads ==> OwnsRows(s.reloads[r].rows, x, h) && OwnsCache(s.reloads[r].next, x, h))
  }

  /** What is stored, in flight and unflushed for key x, beyond its granted requests. */
  ghost function Gap(s: Store, x: KeyId, h: Hash): int
    requires x in s.db && x in s.granted
  {
    s.db[x].requestCount + InFlight(s.writing, h) + Delta(s.cache, h) - s.granted[x]
  }

  ghost predicate Spares(a: Action, x: KeyId) {
    !(a.Rotate? && a.id == x) && !(a.Delete? && a.id == x)
  }

  ghost predicate AllSpare(acts: seq<Action>, x: KeyId) {
    forall i :: 0 <= i < |acts| ==> Spares(acts[i], x)
  }

  lemma CacheStepOwns(s: Store, a: Action, x: KeyId, h: Hash)
    requires Owns(s, x, h) && Step(s, a).Some? && (a.Auth? || a.Collect? || a.Write?)
    ensures Owns(Step(s, a).value, x, h)
  {
  }

  lemma ReloadStepOwns(s: Store, a: Action, x: KeyId, h: Hash)
    requires Owns(s, x, h) && Step(s, a).Some? && (a.Begin? || a.Copy? || a.Swap?)
    ensures Owns(Step(s, a).value, x, h)
  {
  }

  lemma TableStepOwns(s: Store, a: Action, x: KeyId, h: Hash)
    requires Owns(s, x, h) && Spares(a, x) && Step(s, a).Some? && (a.Create? || a.Change? || a.Rotate? || a.Delete?)
    ensures Owns(Step(s, a).value, x, h)
  {
  }

  lemma StepOwns(s: Store, a: Action, x: KeyId, h: Hash)
    requires Owns(s, x, h) && Spares(a, x) && Step(s, a).Some?
    ensures Owns(Step(s, a).value, x, h)
  {
    if a.Auth? || a.Collect? || a.Write? {
      CacheStepOwns(s, a, x, h);
    } else if a.Begin? || a.Copy? || a.Swap? {
      ReloadStepOwns(s, a, x, h);
    } else {
      TableStepOwns(s, a, x, h);
    }
  }

  lemma {:induction false} RunOwns(s: Store, acts: seq<Action>, x: KeyId, h: Hash)
    requires Owns(s, x, h) && Exec(s, acts).Some? && AllSpare(acts, x)
    ensures Owns(Exec(s, acts).value, x, h)
  {
    if acts != [] {
      var n := |acts| - 1;
      RunOwns(s, acts[..n], x, h);
      StepOwns(Exec(s, acts[..n]).value, acts[n], x, h);
    }
  }

  /** A step changes the gap of a key only by swapping the cache or by failing to write its entry. */
  lemma StepGap(s: Store, a: Action, x: KeyId, h: Hash)
    requires Owns(s, x, h) && Spares(a, x) && Step(s, a).Some? && Owns(Step(s, a).value, x, h)
    ensures Gap(Step(s, a).value, x, h) == Gap(s, x, h) +
      (if a.Swap? then Delta(s.reloads[a.reload].next, h) - Delta(s.cache, h)
       else if a.Write? && a.hash == h && !a.ok then -(InFlight(s.writing, h) as int)
       else 0)
  {
  }

  // ---- creation ----

  /** Neither the id nor the hash occurs anywhere yet. */
  ghost predicate Unused(s: Store, x: KeyId, h: Hash) {
    && x !in s.db && x !in s.granted
    && (forall id :: id in s.db ==> s.db[id].hash != h)
    && (forall k :: k in s.cache ==> k != h && s.cache[k].id != x)
    && (forall k :: k in s.writing ==> k != h && s.writing[k].id != x)
    && (forall r, id :: r in s.reloads && id in s.reloads[r].rows ==> id != x && s.reloads[r].rows[id].hash != h)
    && (forall r, k :: r in s.reloads && k in s.reloads[r].next ==> k != h && s.reloads[r].next[k].id != x)
  }

  /** Stepping through a run one action at a time. */
  lemma ExecNext(s: Store, acts: seq<Action>, t: Store, a: Action)
    requires Exec(s, acts) == Some(t)
    ensures Exec(s, acts + [a]) == Step(t, a)
  {
    assert (acts + [a])[..|acts|] == acts;
  }

  lemma {:induction false} ExecConcat(s: Store, first: seq<Action>, more: seq<Action>)
    requires Exec(s, first).Some?
    ensures Exec(s, first + more) == Exec(Exec(s, first).value, more)
  {
    if more == [] {
      assert first + more == first;
    } else {
      var n := |more| - 1;
      ExecConcat(s, first, more[..n]);
      var all := first + more;
      assert all[..|all| - 1] == first + more[..n] && all[|all| - 1] == more[n];
    }
  }
}
