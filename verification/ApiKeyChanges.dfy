/** What administration does to requests: every change of the key table takes effect with the next reload
    that begins after it, whatever interleaves with that reload. */
module ApiKeyChanges {
  import opened Options
  import opened RateLimiter
  import opened ApiKeyUsage
  import opened ApiKeyReloads

  ghost predicate UniqueHashes(db: Table) {
    forall x, y :: x in db && y in db && x != y ==> db[x].hash != db[y].hash
  }

  lemma UniqueStep(s: Store, a: Action)
    requires UniqueHashes(s.db) && Step(s, a).Some?
    ensures UniqueHashes(Step(s, a).value.db)
  {
  }

  /** In every run no two keys of the table have the same hash. */
  lemma {:induction false} RunUnique(acts: seq<Action>)
    requires Exec(Init(), acts).Some?
    ensures UniqueHashes(Exec(Init(), acts).value.db)
  {
    if acts != [] {
      RunUnique(acts[..|acts| - 1]);
      UniqueStep(Exec(Init(), acts[..|acts| - 1]).value, acts[|acts| - 1]);
    }
  }

  /** The cache being built has this key as the table had it. */
  ghost predicate Has(next: Cache, x: KeyId, row: KeyRow) {
    row.hash in next && next[row.hash].id == x && next[row.hash].key == row
  }

  /** Reload r is on its way through the rows of db: each is still to be copied or is in the new cache,
      which has nothing else. */
  ghost predicate Reading(s: Store, r: ReloadId, db: Table) {
    && r in s.reloads
    && s.reloads[r].rows.Keys <= db.Keys
    && (forall x :: x in db && x in s.reloads[r].rows ==> s.reloads[r].rows[x] == db[x])
    && (forall x :: x in db && x !in s.reloads[r].rows ==> Has(s.reloads[r].next, x, db[x]))
    && (forall h :: h in s.reloads[r].next ==> exists x :: x in db && db[x].hash == h)
  }

  /** Steps of others leave what reload r has read alone. */
  lemma OthersLeaveReload(s: Store, a: Action, r: ReloadId)
    requires r in s.reloads && Step(s, a).Some? && !(a.Copy? && a.reload == r) && !(a.Swap? && a.reload == r)
    ensures r in Step(s, a).value.reloads && Step(s, a).value.reloads[r] == s.reloads[r]
  {
  }

  lemma CopyReads(s: Store, r: ReloadId, id: KeyId, db: Table)
    requires UniqueHashes(db) && Reading(s, r, db) && Step(s, Copy(r, id)).Some?
    ensures Reading(Step(s, Copy(r, id)).value, r, db)
  {
    var t := Step(s, Copy(r, id)).value;
    forall x | x in db && x !in t.reloads[r].rows ensures Has(t.reloads[r].next, x, db[x]) {
      if x != id {
        assert Has(s.reloads[r].next, x, db[x]) && db[x].hash != db[id].hash;
      }
    }
    forall h | h in t.reloads[r].next ensures exists x :: x in db && db[x].hash == h {
      if h == db[id].hash {
        assert id in db;
      }
    }
  }

  ghost predicate NoSwap(acts: seq<Action>, r: ReloadId) {
    forall i :: 0 <= i < |acts| ==> !(acts[i].Swap? && acts[i].reload == r)
  }

  lemma {:induction false} RunReads(s: Store, acts: seq<Action>, r: ReloadId, db: Table)
    requires UniqueHashes(db) && Reading(s, r, db) && Exec(s, acts).Some? && NoSwap(acts, r)
    ensures Reading(Exec(s, acts).value, r, db)
  {
    if acts != [] {
      var n := |acts| - 1; var a := acts[n];
      RunReads(s, acts[..n], r, db);
      var before := Exec(s, acts[..n]).value;
      if a.Copy? && a.reload == r {
        CopyReads(before, r, a.id, db);
      } else {
        OthersLeaveReload(before, a, r);
      }
    }
  }

  /** The cache is the given table: each key under its hash with its row, and nothing else. */
  ghost predicate Installed(cache: Cache, db: Table) {
    && (forall x :: x in db ==> db[x].hash in cache && cache[db[x].hash].id == x && cache[db[x].hash].key == db[x])
    && (forall h :: h in cache ==> exists x :: x in db && db[x].hash == h)
  }

  /** A reload, with anything interleaved, installs exactly the table as it was when the reload began. */
  lemma ReloadInstalls(s: Store, r: ReloadId, between: seq<Action>)
    requires UniqueHashes(s.db) && Step(s, Begin(r)).Some? && NoSwap(between, r)
    requires Exec(Step(s, Begin(r)).value, between).Some?
    requires Step(Exec(Step(s, Begin(r)).value, between).value, Swap(r)).Some?
    ensures Installed(Step(Exec(Step(s, Begin(r)).value, between).value, Swap(r)).value.cache, s.db)
  {
    var b := Step(s, Begin(r)).value;
    RunReads(b, between, r, s.db);
    var t := Exec(b, between).value;
    forall x | x in s.db ensures Has(t.reloads[r].next, x, s.db[x]) {
    }
  }

  /** The store after a reload that began in s, with `between` interleaved. */
  ghost predicate AfterReload(s: Store, r: ReloadId, between: seq<Action>, u: Store) {
    && Step(s, Begin(r)).Some? && NoSwap(between, r) && Exec(Step(s, Begin(r)).value, between).Some?
    && Step(Exec(Step(s, Begin(r)).value, between).value, Swap(r)) == Some(u)
  }

  /** A deleted key is not granted anything after a reload that began after the deletion. */
  lemma DeletionRevokes(s: Store, x: KeyId, r: ReloadId, between: seq<Action>, u: Store, expNow: int, now: int)
    requires UniqueHashes(s.db) && x in s.db && Step(s, Delete(x)).Some?
    requires AfterReload(Step(s, Delete(x)).value, r, between, u)
    ensures s.db[x].hash !in u.cache && !Grants(u, Auth(s.db[x].hash, expNow, now), s.db[x].hash)
  {
    var t := Step(s, Delete(x)).value;
    UniqueStep(s, Delete(x));
    ReloadInstalls(t, r, between);
    forall y | y in t.db ensures t.db[y].hash != s.db[x].hash {
      assert y in s.db && y != x;
    }
  }

  /** A changed key, hash and usage aside, has its new settings after such a reload, so a disabled one is
      not granted anything. */
  lemma ChangeTakesEffect(s: Store, x: KeyId, row: KeyRow, r: ReloadId, between: seq<Action>, u: Store,
                          expNow: int, now: int)
    requires UniqueHashes(s.db) && x in s.db && Step(s, Change(x, row)).Some?
    requires AfterReload(Step(s, Change(x, row)).value, r, between, u)
    ensures var h := s.db[x].hash;
      && h in u.cache && u.cache[h].id == x
      && u.cache[h].key.enabled == row.enabled && u.cache[h].key.expiresAt == row.expiresAt
      && u.cache[h].key.rateLimit == row.rateLimit && u.cache[h].key.rateWindowSec == row.rateWindowSec
      && (!row.enabled ==> !Grants(u, Auth(h, expNow, now), h))
  {
    var t := Step(s, Change(x, row)).value;
    UniqueStep(s, Change(x, row));
    ReloadInstalls(t, r, between);
    assert x in t.db && t.db[x].hash == s.db[x].hash;
  }

  /** After rotation and such a reload the old secret is unknown and the new one has the key's settings. */
  lemma RotationTakesEffect(s: Store, x: KeyId, h: Hash, r: ReloadId, between: seq<Action>, u: Store)
    requires UniqueHashes(s.db) && x in s.db && Step(s, Rotate(x, h)).Some?
    requires AfterReload(Step(s, Rotate(x, h)).value, r, between, u)
    ensures h in u.cache && u.cache[h].id == x && u.cache[h].key == s.db[x].(hash := h)
    ensures s.db[x].hash !in u.cache
  {
    var t := Step(s, Rotate(x, h)).value;
    assert s.db[x].hash != h && x in t.db && t.db[x].hash == h;
    UniqueStep(s, Rotate(x, h));
    ReloadInstalls(t, r, between);
    forall y | y in t.db ensures t.db[y].hash != s.db[x].hash {
      assert y in s.db;
    }
  }

  /** A created key is known after such a reload, without any usage. */
  lemma CreationTakesEffect(s: Store, x: KeyId, row: KeyRow, r: ReloadId, between: seq<Action>, u: Store)
    requires UniqueHashes(s.db) && Step(s, Create(x, row)).Some?
    requires AfterReload(Step(s, Create(x, row)).value, r, between, u)
    ensures row.hash in u.cache && u.cache[row.hash].id == x
    ensures u.cache[row.hash].key == row.(requestCount := 0, lastUsedAt := 0)
  {
    var t := Step(s, Create(x, row)).value;
    UniqueStep(s, Create(x, row));
    ReloadInstalls(t, r, between);
    assert x in t.db && t.db[x].hash == row.hash;
  }
}
