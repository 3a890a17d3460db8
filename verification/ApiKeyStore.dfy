/** The API key store as the program has it: a cache map of key states, the key table, and the
    methods Authenticate, flush, reload and Get. */
module ApiKeyStore {
  import opened Options
  import opened RateLimiter
  import opened ApiKeyUsage
  import opened ApiKeyReloads

  /** Hashes are unique in the table and keys are cached under their own hash. */
  ghost predicate Coherent(db: Table, cache: Cache) {
    && (forall x, y :: x in db && y in db && x != y ==> db[x].hash != db[y].hash)
    && (forall h, k :: h in cache && k in cache && h != k ==> cache[h].id != cache[k].id)
  }

  /** The key is switched on and has not expired. */
  predicate Valid(key: KeyRow, expNow: int) {
    key.enabled && !(key.expiresAt > 0 && expNow >= key.expiresAt)
  }

  /** A window is as long as configured, or a minute. */
  function WindowSeconds(key: KeyRow): int {
    if key.rateWindowSec > 0 then key.rateWindowSec else 60
  }

  /** A window has begun and is not over. */
  predicate InWindow(st: KeyState, now: int) {
    st.window.start != 0 && now < st.window.start + WindowSeconds(st.key)
  }

  function WindowStart(st: KeyState, now: int): int {
    if InWindow(st, now) then st.window.start else now
  }

  /** The requests counted in the window that a request now belongs to. */
  function UsedInWindow(st: KeyState, now: int): nat {
    if InWindow(st, now) then st.window.count else 0
  }

  /** Whether a request meets a valid key with room in its window. */
  predicate Admissible(st: KeyState, expNow: int, now: int) {
    Valid(st.key, expNow) && (st.key.rateLimit <= 0 || UsedInWindow(st, now) < st.key.rateLimit)
  }

  /** A request is granted exactly when its key is cached, switched on, not expired, and unlimited or
      with room in its window. */
  lemma GrantsExactly(s: Store, a: Action, h: Hash)
    ensures Grants(s, a, h) <==>
      a.Auth? && a.hash == h && h in s.cache && Admissible(s.cache[h], a.expNow, a.now)
  {
  }

  /** How many requests of the run found key h admissible. */
  ghost function AdmissibleIn(s: Store, acts: seq<Action>, h: Hash): nat {
    if acts == [] then 0 else
      var n := |acts| - 1; var a := acts[n]; var before := Exec(s, acts[..n]);
      AdmissibleIn(s, acts[..n], h) +
        if before.Some? && a.Auth? && a.hash == h && h in before.value.cache
           && Admissible(before.value.cache[h], a.expNow, a.now) then 1 else 0
  }

  lemma StepGrants(s: Store, a: Action, x: KeyId, h: Hash)
    requires Owns(s, x, h) && Step(s, a).Some? && x in Step(s, a).value.granted
    ensures Step(s, a).value.granted[x] == s.granted[x] + if Grants(s, a, h) then 1 else 0
  {
  }

  /** Over any interleaving with flushes, reloads and changes of keys, the requests granted to a key are
      exactly those that found it admissible in the cache; so none is granted while it is cached disabled
      or expired. */
  lemma {:induction false} GrantedExactly(s: Store, acts: seq<Action>, x: KeyId, h: Hash)
    requires Owns(s, x, h) && Exec(s, acts).Some? && AllSpare(acts, x)
    ensures Owns(Exec(s, acts).value, x, h)
    ensures Exec(s, acts).value.granted[x] == s.granted[x] + AdmissibleIn(s, acts, h)
  {
    if acts != [] {
      var n := |acts| - 1;
      var before := Exec(s, acts[..n]).value;
      GrantedExactly(s, acts[..n], x, h);
      StepOwns(before, acts[n], x, h);
      GrantsExactly(before, acts[n], h);
      StepGrants(before, acts[n], x, h);
    }
  }

  /** Every request for key h finds it disabled or expired, if it finds it at all. */
  ghost predicate NeverValid(s: Store, acts: seq<Action>, h: Hash) {
    acts == [] ||
    (var n := |acts| - 1; var a := acts[n]; var before := Exec(s, acts[..n]);
     && NeverValid(s, acts[..n], h)
     && (before.Some? && a.Auth? && a.hash == h && h in before.value.cache ==>
          var key := before.value.cache[h].key; !key.enabled || (key.expiresAt > 0 && a.expNow >= key.expiresAt)))
  }

  lemma {:induction false} NothingGrantedMeanwhile(s: Store, acts: seq<Action>, x: KeyId, h: Hash)
    requires Owns(s, x, h) && Exec(s, acts).Some? && AllSpare(acts, x) && NeverValid(s, acts, h)
    ensures x in Exec(s, acts).value.granted && Exec(s, acts).value.granted[x] == s.granted[x]
  {
    if acts != [] {
      var n := |acts| - 1;
      NothingGrantedMeanwhile(s, acts[..n], x, h);
      GrantedExactly(s, acts[..n], x, h);
      GrantedExactly(s, acts, x, h);
    }
  }

  /** A key with its usage up to the moment. */
  function Displayed(st: KeyState): KeyRow {
    st.key.(requestCount := st.key.requestCount + st.usageDelta,
            lastUsedAt := if st.lastUsed > st.key.lastUsedAt then st.lastUsed else st.key.lastUsedAt)
  }

  /** The table after the UPDATEs for the keys in done, one each, of which those with ok succeed. */
  ghost predicate Written(before: Table, after: Table, updates: map<Hash, Update>, done: set<Hash>, ok: Hash -> bool)
    requires done <= updates.Keys
  {
    && after.Keys == before.Keys
    && (forall h :: h in done && updates[h].id in before ==>
         var id := updates[h].id; after[id] == if ok(h) then AddUsage(before, updates[h])[id] else before[id])
    && (forall x :: x in before && (forall h :: h in done ==> updates[h].id != x) ==> after[x] == before[x])
  }

  lemma WrittenNext(before: Table, after: Table, updates: map<Hash, Update>, done: set<Hash>, ok: Hash -> bool, h: Hash)
    requires done <= updates.Keys && h in updates && h !in done && Written(before, after, updates, done, ok)
    requires forall j, k :: j in updates && k in updates && j != k ==> updates[j].id != updates[k].id
    ensures Written(before, if ok(h) then AddUsage(after, updates[h]) else after, updates, done + {h}, ok)
  {
    var more, x := if ok(h) then AddUsage(after, updates[h]) else after, updates[h].id;
    if x in before {
      assert after[x] == before[x];
    }
    forall k | k in done + {h} && updates[k].id in before
      ensures more[updates[k].id] ==
        if ok(k) then AddUsage(before, updates[k])[updates[k].id] else before[updates[k].id]
    {
      if k != h {
        assert updates[k].id != x;
      }
    }
  }

  /** The list the flusher makes of the cache. */
  ghost predicate Listed(cache: Cache, updates: map<Hash, Update>) {
    && (forall h :: h in updates <==> h in cache && cache[h].usageDelta > 0)
    && (forall h :: h in updates ==> updates[h] == Update(cache[h].id, cache[h].usageDelta, cache[h].lastUsed))
  }

  /** A row before and after the flush of its key: usage is added and last use set when there was any and
      the write succeeds, and nothing else changes. */
  predicate RowFlushed(st: KeyState, was: KeyRow, row: KeyRow, ok: bool) {
    if st.usageDelta > 0 && ok then
      row == was.(requestCount := was.requestCount + st.usageDelta, lastUsedAt := st.lastUsed)
    else row == was
  }

  lemma RowIsFlushed(cache: Cache, before: Table, after: Table, updates: map<Hash, Update>, ok: Hash -> bool, h: Hash)
    requires Coherent(before, cache) && Listed(cache, updates) && Written(before, after, updates, updates.Keys, ok)
    requires h in cache && cache[h].id in before
    ensures cache[h].id in after && RowFlushed(cache[h], before[cache[h].id], after[cache[h].id], ok(h))
  {
    if h !in updates {
      assert forall k :: k in updates ==> updates[k].id != cache[h].id;
    }
  }

  lemma DistinctUpdates(db: Table, cache: Cache, updates: map<Hash, Update>)
    requires Coherent(db, cache) && Listed(cache, updates)
    ensures forall h, k :: h in updates && k in updates && h != k ==> updates[h].id != updates[k].id
  {
  }

  lemma CollectedDisplay(st: KeyState)
    ensures Displayed(Collected(st)) == Displayed(st)
  {
  }

  lemma OtherRowStays(cache: Cache, before: Table, after: Table, updates: map<Hash, Update>, ok: Hash -> bool, x: KeyId)
    requires Listed(cache, updates) && Written(before, after, updates, updates.Keys, ok)
    requires x in before && forall h :: h in cache ==> cache[h].id != x
    ensures x in after && after[x] == before[x]
  {
  }

  class ApiKeyStore {
    var db: Table
    var cache: Cache

    constructor (db: Table)
      ensures this.db == db && cache == map[]
    {
      this.db, cache := db, map[];
    }

    /** Validates, applies the window limiter and counts the request, under the lock. */
    method Authenticate(hash: Hash, expNow: int, now: int) returns (result: AuthResult)
      modifies this`cache
      ensures hash !in old(cache) ==> result == KeyInvalid && cache == old(cache)
      ensures hash in old(cache) ==>
        var (st, r) := Admit(old(cache)[hash], expNow, now); result == r && cache == old(cache)[hash := st]
      ensures result == KeyInvalid <==> hash !in old(cache)
      ensures hash in old(cache) ==>
        var key := old(cache)[hash].key; var used := UsedInWindow(old(cache)[hash], now);
        && (result == KeyDisabled <==> !key.enabled)
        && (result == KeyExpired <==> key.enabled && key.expiresAt > 0 && expNow >= key.expiresAt)
        && (result.RateLimited? <==> Valid(key, expNow) && key.rateLimit > 0 && used >= key.rateLimit)
        && (result.Granted? <==> Valid(key, expNow) && (key.rateLimit <= 0 || used < key.rateLimit))
      ensures result.RateLimited? ==>
        var st := old(cache)[hash];
        result.rate == RateResult(st.key.rateLimit, 0, WindowStart(st, now) + WindowSeconds(st.key), false)
      ensures result.Granted? ==>
        var st := old(cache)[hash];
        && result.key == st.key && result.rate.limit == st.key.rateLimit && result.rate.allowed
        && (st.key.rateLimit > 0 ==>
             && result.rate.remaining == st.key.rateLimit - UsedInWindow(st, now) - 1
             && result.rate.resetAt == WindowStart(st, now) + WindowSeconds(st.key))
      ensures cache.Keys == old(cache).Keys && forall h :: h in cache && h != hash ==> cache[h] == old(cache)[h]
      ensures hash in cache ==>
        var st, was := cache[hash], old(cache)[hash];
        && st.id == was.id && st.key == was.key
        && st.usageDelta == was.usageDelta + (if result.Granted? then 1 else 0)
        && st.lastUsed == (if result.Granted? then now else was.lastUsed)
        && (if Valid(was.key, expNow) && was.key.rateLimit > 0
            then st.window.start == WindowStart(was, now)
              && st.window.count == UsedInWindow(was, now) + (if result.Granted? then 1 else 0)
            else st.window == was.window)
    {
      if hash !in cache {
        return KeyInvalid;
      }
      var st := cache[hash];
      assert cache == cache[hash := st];
      if !st.key.enabled {
        return KeyDisabled;
      }
      if st.key.expiresAt > 0 && expNow >= st.key.expiresAt {
        return KeyExpired;
      }
      var rate := RateResult(st.key.rateLimit, 0, 0, true);
      if st.key.rateLimit > 0 {
        var win := st.key.rateWindowSec;
        if win <= 0 {
          win := 60;
        }
        if st.window.start == 0 || now - st.window.start >= win {
          st := st.(window := Window(now, 0));
        }
        rate := rate.(resetAt := st.window.start + win);
        if st.window.count >= st.key.rateLimit {
          cache := cache[hash := st];
          return RateLimited(rate.(allowed := false));
        }
        st := st.(window := st.window.(count := st.window.count + 1));
        rate := rate.(remaining := st.key.rateLimit - st.window.count);
      }
      st := st.(usageDelta := st.usageDelta + 1, lastUsed := now);
      cache := cache[hash := st];
      result := Granted(st.key, rate);
    }

    /** One key's turn in the locked half of flush. */
    method CollectKey(h: Hash, updates: map<Hash, Update>) returns (more: map<Hash, Update>)
      requires h in cache
      modifies this`cache
      ensures cache == old(cache)[h := Collected(old(cache)[h])]
      ensures more == if old(cache)[h].usageDelta > 0
        then updates[h := Update(old(cache)[h].id, old(cache)[h].usageDelta, old(cache)[h].lastUsed)] else updates
    {
      more := updates;
      var st := cache[h];
      assert cache == cache[h := st];
      if st.usageDelta > 0 {
        more := updates[h := Update(st.id, st.usageDelta, st.lastUsed)];
        var key := st.key.(requestCount := st.key.requestCount + st.usageDelta);
        if st.lastUsed > key.lastUsedAt {
          key := key.(lastUsedAt := st.lastUsed);
        }
        cache := cache[h := st.(key := key, usageDelta := 0)];
      }
    }

    /** The locked half of flush: every unflushed count moves to the list, in any order of the keys. */
    method CollectUpdates() returns (updates: map<Hash, Update>)
      modifies this`cache
      ensures cache.Keys == old(cache).Keys && forall h :: h in cache ==> cache[h] == Collected(old(cache)[h])
      ensures Listed(old(cache), updates)
    {
      updates := map[];
      var todo := cache.Keys;
      while todo != {}
        invariant todo <= old(cache).Keys && cache.Keys == old(cache).Keys
        invariant forall h :: h in cache ==> cache[h] == if h in todo then old(cache)[h] else Collected(old(cache)[h])
        invariant forall h :: h in updates <==> h in old(cache) && h !in todo && old(cache)[h].usageDelta > 0
        invariant forall h :: h in updates ==>
          updates[h] == Update(old(cache)[h].id, old(cache)[h].usageDelta, old(cache)[h].lastUsed)
        decreases |todo|
      {
        var h :| h in todo;
        updates := CollectKey(h, updates);
        todo := todo - {h};
      }
    }

    /** The unlocked half of flush: one UPDATE per list entry; a failed one is logged and skipped. */
    method WriteUpdates(updates: map<Hash, Update>, ok: Hash -> bool)
      requires forall h, k :: h in updates && k in updates && h != k ==> updates[h].id != updates[k].id
      modifies this`db
      ensures Written(old(db), db, updates, updates.Keys, ok)
    {
      var todo := updates.Keys;
      while todo != {}
        invariant todo <= updates.Keys && Written(old(db), db, updates, updates.Keys - todo, ok)
        decreases |todo|
      {
        var h :| h in todo;
        WrittenNext(old(db), db, updates, updates.Keys - todo, ok, h);
        assert updates.Keys - (todo - {h}) == updates.Keys - todo + {h};
        if ok(h) {
          db := AddUsage(db, updates[h]);
        }
        todo := todo - {h};
      }
    }

    /** Flush moves every key's unflushed usage into its row; what a failed UPDATE should have added is
        lost, and nothing else changes. What is displayed for a key stays the same. */
    method Flush(ok: Hash -> bool)
      requires Coherent(db, cache)
      modifies this
      ensures cache.Keys == old(cache).Keys && forall h :: h in cache ==> cache[h] == Collected(old(cache)[h])
      ensures db.Keys == old(db).Keys
      ensures forall h :: h in cache && cache[h].id in db ==>
        RowFlushed(old(cache)[h], old(db)[cache[h].id], db[cache[h].id], ok(h))
      ensures forall h :: h in cache ==>
        && cache[h].usageDelta == 0 && cache[h].id == old(cache)[h].id
        && cache[h].window == old(cache)[h].window && cache[h].lastUsed == old(cache)[h].lastUsed
      ensures forall h :: h in cache ==> Displayed(cache[h]) == Displayed(old(cache)[h])
      ensures forall x :: x in db && (forall h :: h in cache ==> cache[h].id != x) ==> db[x] == old(db)[x]
    {
      var updates := CollectUpdates();
      DistinctUpdates(db, old(cache), updates);
      WriteUpdates(updates, ok);
      forall h | h in cache && cache[h].id in db
        ensures RowFlushed(old(cache)[h], old(db)[cache[h].id], db[cache[h].id], ok(h))
      {
        RowIsFlushed(old(cache), old(db), db, updates, ok, h);
      }
      forall h | h in cache ensures Displayed(cache[h]) == Displayed(old(cache)[h]) {
        CollectedDisplay(old(cache)[h]);
      }
      forall x | x in db && (forall h :: h in cache ==> cache[h].id != x) ensures db[x] == old(db)[x] {
        OtherRowStays(old(cache), old(db), db, updates, ok, x);
      }
    }

    /** Reload without interference: the cache becomes the table's keys, each keeping the window and
        unflushed usage it had under its hash. */
    method Reload()
      requires Coherent(db, cache)
      modifies this`cache
      ensures Coherent(db, cache)
      ensures forall x :: x in db ==> db[x].hash in cache && cache[db[x].hash] == Reloaded(x, db[x], old(cache))
      ensures forall h :: h in cache ==> exists x :: x in db && db[x].hash == h
      ensures forall x :: x in db ==>
        var st := cache[db[x].hash];
        && st.id == x && st.key == db[x]
        && (db[x].hash in old(cache) ==>
             var prev := old(cache)[db[x].hash];
             st.window == prev.window && st.usageDelta == prev.usageDelta && st.lastUsed == prev.lastUsed)
        && (db[x].hash !in old(cache) ==> st.window == Window(0, 0) && st.usageDelta == 0 && st.lastUsed == 0)
    {
      var next: Cache := map[];
      var todo := db.Keys;
      while todo != {}
        invariant todo <= db.Keys && cache == old(cache)
        invariant forall x :: x in db && x !in todo ==>
          db[x].hash in next && next[db[x].hash] == Reloaded(x, db[x], cache)
        invariant forall h :: h in next ==> next[h].id in db && next[h].id !in todo && db[next[h].id].hash == h
        decreases |todo|
      {
        var x :| x in todo;
        next := next[db[x].hash := Reloaded(x, db[x], cache)];
        todo := todo - {x};
      }
      cache := next;
    }

    /** One key by id, its stored count plus what has not been flushed yet. */
    method Get(id: KeyId) returns (key: Option<KeyRow>)
      requires Coherent(db, cache)
      ensures key.None? <==> forall h :: h in cache ==> cache[h].id != id
      ensures forall h :: h in cache && cache[h].id == id ==> key == Some(Displayed(cache[h]))
      ensures forall h :: h in cache && cache[h].id == id ==>
        var st := cache[h];
        && key.Some? && key.value.requestCount == st.key.requestCount + st.usageDelta
        && key.value.lastUsedAt == (if st.lastUsed > st.key.lastUsedAt then st.lastUsed else st.key.lastUsedAt)
        && key.value.(requestCount := st.key.requestCount, lastUsedAt := st.key.lastUsedAt) == st.key
    {
      var todo := cache.Keys;
      while todo != {}
        invariant todo <= cache.Keys && forall h :: h in cache && h !in todo ==> cache[h].id != id
        decreases |todo|
      {
        var h :| h in todo;
        var st := cache[h];
        if st.id == id {
          var k := st.key.(requestCount := st.key.requestCount + st.usageDelta);
          if st.lastUsed > k.lastUsedAt {
            k := k.(lastUsedAt := st.lastUsed);
          }
          return Some(k);
        }
        todo := todo - {h};
      }
      key := None;
    }
  }
}
